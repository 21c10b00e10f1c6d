/** Confluence: advancing at one time and then at a later one is advancing once at the later time. */
module VotingConfluence {
  import opened VotingProposal
  import opened VotingQueue
  import opened VotingAdvance

  lemma {:induction false} PromotionsFrame(ps: Proposals, ps': Proposals, queue: seq<ProposalId>,
                                           freed: multiset<nat>, room: nat, now: nat)
    requires Waiting(ps, queue) && Waiting(ps', queue)
    requires forall i :: 0 <= i < |queue| ==> queue[i] in ps && queue[i] in ps' && ps'[queue[i]] == ps[queue[i]]
    ensures Promotions(ps', queue, freed, room, now) == Promotions(ps, queue, freed, room, now)
    decreases |queue|
  {
    hide WellFormed, SlotEnd, HasRun, SlotStart, Least, Begun, Handed, NextStart, Waiting, Promotions;
    if queue == [] || room == 0 {
      PromotionsDone(ps, queue, freed, room, now);
      PromotionsDone(ps', queue, freed, room, now);
    } else {
      PromotionsNext(ps, queue, freed, room, now);
      PromotionsNext(ps', queue, freed, room, now);
      var p := Begun(ps[queue[0]], NextStart(freed, now), now);
      PromotionsFrame(ps, ps', queue[1..], Handed(freed, p), if IsActive(p.status) then room - 1 else room, now);
    }
  }

  lemma PromotionsDone(ps: Proposals, queue: seq<ProposalId>, freed: multiset<nat>, room: nat, now: nat)
    requires Waiting(ps, queue) && (queue == [] || room == 0)
    ensures Promotions(ps, queue, freed, room, now) == []
  {
  }

  /** Behind a full active set, all the room there is comes from slots that were given back. */
  lemma RoomIsFreed(b: Board, now: nat)
    requires Consistent(b) && |b.active| == b.cap
    ensures Room(b, now) == |Freed(b, now)|
  {
    hide WellFormed, SlotEnd, HasRun, SlotStart, Update, Ends;
    ExitsRun(b, now);
    EndsCount(b.proposals, Exits(b, now));
    assert |b.active - Exits(b, now)| == |b.active| - |Exits(b, now)| by {
      assert b.active == (b.active - Exits(b, now)) + Exits(b, now);
    }
  }

  /** Exits by `t2` are those by `t1` and those in between. */
  lemma FreedSplits(b: Board, t1: nat, t2: nat)
    requires Consistent(b) && t1 <= t2
    ensures Running(b.proposals, Exits(b, t2) - Exits(b, t1))
    ensures var late := Ends(b.proposals, Exits(b, t2) - Exits(b, t1));
            && Freed(b, t2) == Freed(b, t1) + late
            && (forall e :: e in Freed(b, t1) ==> e <= t1)
            && (forall e :: e in late ==> t1 < e <= t2)
  {
    hide WellFormed, SlotEnd, HasRun, SlotStart, Update, Ends;
    ExitsRun(b, t1);
    ExitsRun(b, t2);
    var between := Exits(b, t2) - Exits(b, t1);
    EndsWithin(b.proposals, Exits(b, t1), -1, t1);
    EndsWithin(b.proposals, between, t1, t2);
    EndsAdd(b.proposals, Exits(b, t1), between);
    assert Exits(b, t1) + between == Exits(b, t2);
  }

  /** Ids of the proposals in `r` that give their slot back by `t`. */
  ghost function LateIds(r: seq<Proposal>, t: nat): set<ProposalId> {
    if r == [] then {} else (if LeavesBy(r[0], t) then {r[0].id} else {}) + LateIds(r[1..], t)
  }

  lemma {:induction false} LateIdsAre(r: seq<Proposal>, t: nat, id: ProposalId)
    ensures id in LateIds(r, t) <==> exists i :: 0 <= i < |r| && r[i].id == id && LeavesBy(r[i], t)
  {
    hide LeavesBy;
    if r != [] {
      LateIdsAre(r[1..], t, id);
      if id in LateIds(r[1..], t) {
        var i :| 0 <= i < |r[1..]| && r[1..][i].id == id && LeavesBy(r[1..][i], t);
        assert r[i + 1].id == id;
      }
      if i :| 0 < i < |r| && r[i].id == id && LeavesBy(r[i], t) {
        assert r[1..][i - 1] == r[i];
      }
    }
  }

  lemma {:induction false} LateEndsAreEnds(ps: Proposals, r: seq<Proposal>, t: nat)
    requires DistinctIds(r) && Running(ps, LateIds(r, t))
    requires forall i :: 0 <= i < |r| ==> r[i].id in ps && ps[r[i].id] == r[i]
    ensures Ends(ps, LateIds(r, t)) == LateEnds(r, t)
  {
    hide WellFormed, SlotEnd, HasRun, SlotStart, IsActive;
    if r != [] {
      LateEndsAreEnds(ps, r[1..], t);
      LateIdsAre(r[1..], t, r[0].id);
      if LeavesBy(r[0], t) {
        EndsSplit(ps, LateIds(r, t), r[0].id);
        assert LateIds(r, t) - {r[0].id} == LateIds(r[1..], t);
      } else {
        assert LateIds(r, t) == LateIds(r[1..], t);
      }
    }
  }

  /** Who gives a slot back between the two times, seen from the board committed at the first. */
  lemma LaterExits(b: Board, t1: nat, t2: nat)
    requires Consistent(b) && Waiting(b.proposals, b.queue) && t1 <= t2
    ensures var b1 := Advance(b, t1);
            && Consistent(b1)
            && Exits(b1, t2) == (Exits(b, t2) - Exits(b, t1)) + LateIds(Promoted(b, t1), t2)
            && (Exits(b, t2) - Exits(b, t1)) !! LateIds(Promoted(b, t1), t2)
  {
    hide WellFormed, SlotEnd, HasRun, SlotStart, Promoted, Update, Commit, ActiveIds, LateIds;
    var b1, r := Advance(b, t1), Promoted(b, t1);
    AdvanceIsConsistent(b, t1);
    PromotedFromQueue(b, t1);
    ExitsRun(b, t1);
    ExitsRun(b, t2);
    ExitsRun(b1, t2);
    forall id
      ensures id in Exits(b1, t2) <==> id in (Exits(b, t2) - Exits(b, t1)) || id in LateIds(r, t2)
      ensures !(id in (Exits(b, t2) - Exits(b, t1)) && id in LateIds(r, t2))
    {
      LaterExit(b, t1, t2, id);
    }
  }

  lemma LaterExit(b: Board, t1: nat, t2: nat, id: ProposalId)
    requires Consistent(b) && Waiting(b.proposals, b.queue) && t1 <= t2 && Consistent(Advance(b, t1))
    ensures id in Exits(Advance(b, t1), t2)
       <==> id in Exits(b, t2) - Exits(b, t1) || id in LateIds(Promoted(b, t1), t2)
    ensures !(id in Exits(b, t2) - Exits(b, t1) && id in LateIds(Promoted(b, t1), t2))
  {
    hide WellFormed, SlotEnd, HasRun, SlotStart, Promoted, Update, Commit, ActiveIds, LateIds;
    var b1, r := Advance(b, t1), Promoted(b, t1);
    AdvancedAt(b, t1, id);
    LateIdsAre(r, t2, id);
    PromotedFromQueue(b, t1);
    ExitsRun(b, t1);
    ExitsRun(b, t2);
    ExitsRun(b1, t2);
    if id in b.active {
      ActiveIsRunning(b);
      UpdateChangesStatusOnly(b.proposals[id], t1);
      assert b1.proposals[id] == Update(b.proposals[id], t1);
    } else if i :| 0 <= i < |r| && r[i].id == id {
      assert LeavesBy(r[i], t2) <==> id in Exits(b1, t2);
    }
  }

  /** The slots given back by `t2`, seen from the board committed at `t1`. */
  lemma FreedAfterAdvance(b: Board, t1: nat, t2: nat)
    requires Consistent(b) && Waiting(b.proposals, b.queue) && t1 <= t2
    requires Consistent(Advance(b, t1)) && Running(b.proposals, Exits(b, t2) - Exits(b, t1))
    ensures Freed(Advance(b, t1), t2)
         == Ends(b.proposals, Exits(b, t2) - Exits(b, t1)) + LateEnds(Promoted(b, t1), t2)
  {
    hide WellFormed, SlotEnd, HasRun, SlotStart, Promoted, Update, Commit, ActiveIds, LateIds, Ends, LateEnds;
    var b1, r, between := Advance(b, t1), Promoted(b, t1), Exits(b, t2) - Exits(b, t1);
    LaterExits(b, t1, t2);
    ExitsRun(b1, t2);
    PromotedFromQueue(b, t1);
    forall i | 0 <= i < |r| ensures r[i].id in b1.proposals && b1.proposals[r[i].id] == r[i] {
      AdvancedAt(b, t1, r[i].id);
    }
    LateEndsAreEnds(b1.proposals, r, t2);
    EndsAdd(b1.proposals, between, LateIds(r, t2));
    forall id | id in between ensures SlotEnd(b1.proposals[id]) == SlotEnd(b.proposals[id]) {
      AdvancedAt(b, t1, id);
      UpdateChangesStatusOnly(b.proposals[id], t1);
    }
    EndsFrame(b.proposals, b1.proposals, between);
  }

  /** The promotions of one advance at `t2` are those of the two advances in turn. */
  ghost predicate Resumes(b: Board, t1: nat, t2: nat)
    requires Ready(b) && Ready(Advance(b, t1))
  {
    && (forall i :: 0 <= i < |Promoted(b, t1)| ==> WellFormed(Promoted(b, t1)[i]))
    && Promoted(b, t2) == UpdateAll(Promoted(b, t1), t2) + Promoted(Advance(b, t1), t2)
  }

  lemma PromotedTwice(b: Board, t1: nat, t2: nat)
    requires Valid(b) && t1 <= t2
    ensures Valid(Advance(b, t1)) && Resumes(b, t1, t2)
  {
    hide WellFormed, SlotEnd, HasRun, SlotStart, Update, Commit, ActiveIds, LateIds, Ends, LateEnds, Exits,
         Consistent, Waiting, Promotions, Freed, Room, UpdateAll;
    var b1 := Advance(b, t1);
    StaysWithinCap(b, t1);
    AdvanceIsValid(b, t1);
    PromotedFromQueue(b, t1);
    if b.queue == [] {
      PromotionsDone(b.proposals, b.queue, Freed(b, t1), Room(b, t1), t1);
      PromotionsDone(b.proposals, b.queue, Freed(b, t2), Room(b, t2), t2);
      PromotionsDone(b1.proposals, b1.queue, Freed(b1, t2), Room(b1, t2), t2);
    } else {
      QueueKeeps(b, t1);
      FreedSplits(b, t1, t2);
      RoomIsFreed(b, t1);
      RoomIsFreed(b, t2);
      var late := Ends(b.proposals, Exits(b, t2) - Exits(b, t1));
      PromotionsSplit(b.proposals, b.queue, Freed(b, t1), late, t1, t2);
      FreedAfterAdvance(b, t1, t2);
      var late' := Freed(b1, t2);
      if b1.queue == [] {
        PromotionsDone(b1.proposals, b1.queue, late', Room(b1, t2), t2);
        PromotionsDone(b.proposals, b1.queue, late', |late'|, t2);
      } else {
        RoomIsFreed(b1, t2);
        PromotionsFrame(b.proposals, b1.proposals, b1.queue, late', |late'|, t2);
      }
    }
  }

  /** A proposal that has left its slot does not change any more. */
  lemma LeftForGood(p: Proposal, t: nat)
    requires WellFormed(p) && !IsActive(p.status) && p.status != Created
    ensures Update(p, t) == p
  {
  }

  lemma ExitIsFinal(p: Proposal, t: nat)
    requires WellFormed(p) && IsActive(p.status)
    ensures Update(p, t).status != Created
  {
  }

  /** What is stored under `id` is the same on both boards. */
  predicate Agree(b: Board, c: Board, id: ProposalId) {
    (id in b.proposals <==> id in c.proposals) && (id in c.proposals ==> b.proposals[id] == c.proposals[id])
  }

  /** A proposal promoted by the first advance. */
  lemma EarlyAgrees(b: Board, t1: nat, t2: nat, i: nat)
    requires Ready(b) && t1 <= t2 && Ready(Advance(b, t1)) && Resumes(b, t1, t2) && i < |Promoted(b, t1)|
    ensures Agree(Advance(Advance(b, t1), t2), Advance(b, t2), Promoted(b, t1)[i].id)
  {
    hide WellFormed, SlotEnd, HasRun, SlotStart, Update, Promoted, Exits, Waiting, Advance, UpdateAll;
    var b1, early, whole, late := Advance(b, t1), Promoted(b, t1), Promoted(b, t2), Promoted(Advance(b, t1), t2);
    var id := early[i].id;
    PromotedFromQueue(b, t1);
    PromotedFromQueue(b, t2);
    UpdateChangesStatusOnly(early[i], t2);
    assert whole[i] == Update(early[i], t2);
    forall j | 0 <= j < |late| ensures late[j].id != id { assert whole[|early| + j] == late[j]; }
    AdvancedAt(b, t1, id);
    AdvancedAt(b, t2, id);
    AdvancedAt(b1, t2, id);
    if !IsActive(early[i].status) { LeftForGood(early[i], t2); }
  }

  /** A proposal promoted by the second advance. */
  lemma LateAgrees(b: Board, t1: nat, t2: nat, i: nat)
    requires Ready(b) && t1 <= t2 && Ready(Advance(b, t1)) && Resumes(b, t1, t2) && i < |Promoted(Advance(b, t1), t2)|
    ensures Agree(Advance(Advance(b, t1), t2), Advance(b, t2), Promoted(Advance(b, t1), t2)[i].id)
  {
    hide WellFormed, SlotEnd, HasRun, SlotStart, Update, Promoted, Exits, Waiting, Advance, UpdateAll, Consistent;
    var b1, early, whole, late := Advance(b, t1), Promoted(b, t1), Promoted(b, t2), Promoted(Advance(b, t1), t2);
    assert whole[|early| + i] == late[i];
    AdvancedAt(b, t2, late[i].id);
    AdvancedAt(b1, t2, late[i].id);
  }

  /** A proposal that was not promoted. */
  lemma OtherAgrees(b: Board, t1: nat, t2: nat, id: ProposalId)
    requires Ready(b) && t1 <= t2 && Ready(Advance(b, t1)) && Resumes(b, t1, t2)
    requires forall i :: 0 <= i < |Promoted(b, t1)| ==> Promoted(b, t1)[i].id != id
    requires forall i :: 0 <= i < |Promoted(Advance(b, t1), t2)| ==> Promoted(Advance(b, t1), t2)[i].id != id
    ensures Agree(Advance(Advance(b, t1), t2), Advance(b, t2), id)
  {
    hide WellFormed, SlotEnd, HasRun, SlotStart, Update, Promoted, Exits, Waiting, Advance, UpdateAll;
    var b1, early, whole, late := Advance(b, t1), Promoted(b, t1), Promoted(b, t2), Promoted(Advance(b, t1), t2);
    forall j | 0 <= j < |whole| ensures whole[j].id != id {
      if j < |early| {
        UpdateChangesStatusOnly(early[j], t2);
        assert whole[j] == Update(early[j], t2);
      } else {
        assert whole[j] == late[j - |early|];
      }
    }
    AdvancedAt(b, t1, id);
    AdvancedAt(b, t2, id);
    AdvancedAt(b1, t2, id);
    if id in b.active {
      UpdateTwice(b.proposals[id], t1, t2);
      if id !in b1.active {
        ExitIsFinal(b.proposals[id], t1);
        LeftForGood(Update(b.proposals[id], t1), t2);
      }
    }
  }

  /** Boards that store the same under every id have the same proposals, and the same active set. */
  lemma AgreeEverywhere(b: Board, c: Board)
    requires Consistent(b) && Consistent(c) && forall id :: Agree(b, c, id)
    ensures b.proposals == c.proposals && b.active == c.active
  {
    hide WellFormed, IsActive;
    forall id ensures id in b.proposals <==> id in c.proposals { assert Agree(b, c, id); }
    forall id | id in c.proposals ensures b.proposals[id] == c.proposals[id] { assert Agree(b, c, id); }
    assert b.proposals == c.proposals;
    assert b.active == c.active;
  }

  /** If the promotions are the same then so is all that is committed. */
  lemma SameBoard(b: Board, t1: nat, t2: nat)
    requires Ready(b) && t1 <= t2 && Ready(Advance(b, t1)) && Resumes(b, t1, t2)
    ensures Advance(Advance(b, t1), t2) == Advance(b, t2)
  {
    var b1, b12, b2 := Advance(b, t1), Advance(Advance(b, t1), t2), Advance(b, t2);
    SameQueue(b, t1, t2);
    hide WellFormed, SlotEnd, HasRun, SlotStart, Update, Promoted, Exits, Waiting, UpdateAll, Consistent, Agree,
         Advance, Resumes;
    AdvanceIsConsistent(b1, t2);
    AdvanceIsConsistent(b, t2);
    forall id ensures Agree(b12, b2, id) {
      if i :| 0 <= i < |Promoted(b, t1)| && Promoted(b, t1)[i].id == id {
        EarlyAgrees(b, t1, t2, i);
      } else if i :| 0 <= i < |Promoted(b1, t2)| && Promoted(b1, t2)[i].id == id {
        LateAgrees(b, t1, t2, i);
      } else {
        OtherAgrees(b, t1, t2, id);
      }
    }
    AgreeEverywhere(b12, b2);
  }

  /** Confluence: statuses, start times, active set and queue are those of a single advance. */
  lemma AdvanceTwice(b: Board, t1: nat, t2: nat)
    requires Valid(b) && t1 <= t2
    ensures Valid(Advance(b, t1)) && Advance(Advance(b, t1), t2) == Advance(b, t2)
  {
    PromotedTwice(b, t1, t2);
    SameBoard(b, t1, t2);
  }

  lemma SameQueue(b: Board, t1: nat, t2: nat)
    requires Ready(b) && t1 <= t2 && Ready(Advance(b, t1)) && Resumes(b, t1, t2)
    ensures Advance(Advance(b, t1), t2).queue == Advance(b, t2).queue
    ensures Advance(Advance(b, t1), t2).cap == Advance(b, t2).cap
  {
    hide WellFormed, SlotEnd, HasRun, SlotStart, Update, Promoted, Exits, Waiting, UpdateAll, Consistent, Commit,
         ActiveIds;
    PromotedFromQueue(b, t2);
  }
}
