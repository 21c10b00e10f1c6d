/** Advancing a board that holds more slots than a lowered cap allows: an advance forgets the slots it does not fill,
    so that advancing in two steps is advancing once exactly when it leaves no such slot behind for the queue. */
module VotingOverfull {
  import opened VotingProposal
  import opened VotingQueue
  import opened VotingAdvance
  import opened VotingConfluence

  // ---------------------------------------------------------------------------
  // Promotion with fewer slots to fill than were given back
  // ---------------------------------------------------------------------------

  /** One promotion into a slot freed by `t1`, seen at `t1` and at `t2`. */
  lemma PromotesTwice(ps: Proposals, queue: seq<ProposalId>, freed: multiset<nat>, late: multiset<nat>, room1: nat,
                      room2: nat, t1: nat, t2: nat) returns (p1: Proposal, p2: Proposal)
    requires Waiting(ps, queue) && queue != [] && 0 < room1 <= |freed| && room1 <= room2 && t1 <= t2
    requires (forall e :: e in freed ==> e <= t1) && (forall e :: e in late ==> t1 < e <= t2)
    ensures Waiting(ps, queue[1..]) && HasBegun(p1, queue[0], t1) && HasBegun(p2, queue[0], t2)
    ensures p2 == Update(p1, t2) && SlotEnd(p1) == SlotEnd(p2)
    ensures Handed(freed + late, p2) == Handed(freed, p1) + Lingering(late, p1, t2)
    ensures forall e :: e in Handed(freed, p1) ==> e <= t1
    ensures forall e :: e in Lingering(late, p1, t2) ==> t1 < e <= t2
    ensures |Handed(freed, p1)| == if IsActive(p1.status) then |freed| - 1 else |freed|
    ensures Promotions(ps, queue, freed, room1, t1) == [p1]
         + Promotions(ps, queue[1..], Handed(freed, p1), if IsActive(p1.status) then room1 - 1 else room1, t1)
    ensures Promotions(ps, queue, freed + late, room2, t2) == [p2]
         + Promotions(ps, queue[1..], Handed(freed + late, p2), if IsActive(p2.status) then room2 - 1 else room2, t2)
  {
    hide WellFormed, Update, SlotEnd, HasRun, Begun, Least, Waiting, SlotStart, Promotions, Lingering, Popped;
    assert freed != multiset{};
    EarlyComesFirst(freed, late, t1);
    PromotionsNext(ps, queue, freed, room1, t1);
    PromotionsNext(ps, queue, freed + late, room2, t2);
    p1, p2 := Begun(ps[queue[0]], Least(freed), t1), Begun(ps[queue[0]], Least(freed), t2);
    BegunTwice(ps[queue[0]], Least(freed), t1, t2);
    HandedSplits(freed, late, p1, p2, t1, t2);
  }

  /** A queue emptied by `t1` is emptied in the same way at any later time. */
  lemma {:induction false} EmptiedResumes(ps: Proposals, queue: seq<ProposalId>, freed: multiset<nat>,
                                          late: multiset<nat>, room1: nat, room2: nat, t1: nat, t2: nat)
    requires Waiting(ps, queue) && room1 <= |freed| && room1 <= room2 && t1 <= t2
    requires (forall e :: e in freed ==> e <= t1) && (forall e :: e in late ==> t1 < e <= t2)
    requires |Promotions(ps, queue, freed, room1, t1)| == |queue|
    ensures Promotions(ps, queue, freed + late, room2, t2) == UpdateAll(Promotions(ps, queue, freed, room1, t1), t2)
    decreases |queue|
  {
    hide WellFormed, Update, SlotEnd, HasRun, Begun, Least, Waiting, SlotStart, Promotions, Handed, Lingering, Popped,
         UpdateAll;
    if queue == [] || room1 == 0 {
      PromotionsDone(ps, queue, freed, room1, t1);
      PromotionsDone(ps, queue, freed + late, room2, t2);
    } else {
      var p1, p2 := PromotesTwice(ps, queue, freed, late, room1, room2, t1, t2);
      var room1' := if IsActive(p1.status) then room1 - 1 else room1;
      var room2' := if IsActive(p2.status) then room2 - 1 else room2;
      EmptiedResumes(ps, queue[1..], Handed(freed, p1), Lingering(late, p1, t2), room1', room2', t1, t2);
      UpdateAllStep(p1, Promotions(ps, queue[1..], Handed(freed, p1), room1', t1), t2);
    }
  }

  /** A slot given back by `t1` and not filled then would go to the next in the queue, from a time before `t1`. */
  lemma {:induction false} UnfilledIsTaken(ps: Proposals, queue: seq<ProposalId>, freed: multiset<nat>,
                                           late: multiset<nat>, room1: nat, room2: nat, t1: nat, t2: nat)
    requires Waiting(ps, queue) && room1 < |freed| && room1 <= room2 && 0 < room2 && t1 <= t2
    requires (forall e :: e in freed ==> e <= t1) && (forall e :: e in late ==> t1 < e <= t2)
    requires var early := Promotions(ps, queue, freed, room1, t1);
             |early| < |queue| && forall i :: 0 <= i < |early| ==> SlotEnd(early[i]) <= t2
    ensures var n, whole := |Promotions(ps, queue, freed, room1, t1)|, Promotions(ps, queue, freed + late, room2, t2);
            n < |whole| && SlotStart(whole[n]) <= t1
    decreases |queue|
  {
    hide WellFormed, Update, SlotEnd, HasRun, Begun, Least, Waiting, SlotStart, Promotions, Handed, Lingering, Popped;
    if room1 == 0 {
      PromotionsDone(ps, queue, freed, room1, t1);
      assert freed != multiset{};
      EarlyComesFirst(freed, late, t1);
      PromotionsNext(ps, queue, freed + late, room2, t2);
    } else {
      var p1, p2 := PromotesTwice(ps, queue, freed, late, room1, room2, t1, t2);
      var room1' := if IsActive(p1.status) then room1 - 1 else room1;
      var rest := Promotions(ps, queue[1..], Handed(freed, p1), room1', t1);
      assert ([p1] + rest)[0] == p1 && forall i :: 0 <= i < |rest| ==> ([p1] + rest)[i + 1] == rest[i];
      UnfilledIsTaken(ps, queue[1..], Handed(freed, p1), Lingering(late, p1, t2), room1', room2, t1, t2);
    }
  }

  // ---------------------------------------------------------------------------
  // The whole board
  // ---------------------------------------------------------------------------

  /** With the cap reached, the room at a time is at most what was given back, less what is held over the cap. */
  lemma RoomBelowFreed(b: Board, now: nat)
    requires Consistent(b) && |b.active| >= b.cap
    ensures Room(b, now) <= |Freed(b, now)|
    ensures |b.active| > b.cap && Exits(b, now) != {} ==> Room(b, now) < |Freed(b, now)|
    ensures Exits(b, now) == {} ==> Room(b, now) == 0
  {
    hide WellFormed, SlotEnd, HasRun, SlotStart, Update, Ends, Exits;
    ExitsRun(b, now);
    EndsCount(b.proposals, Exits(b, now));
    assert b.active == (b.active - Exits(b, now)) + Exits(b, now);
    assert |b.active - Exits(b, now)| == |b.active| - |Exits(b, now)|;
  }

  lemma RoomGrows(b: Board, t1: nat, t2: nat)
    requires Consistent(b) && t1 <= t2
    ensures Room(b, t1) <= Room(b, t2)
  {
    hide WellFormed, SlotEnd, HasRun, SlotStart, Update, Exits;
    ExitsRun(b, t1);
    ExitsRun(b, t2);
    SubsetIsSmaller(b.active - Exits(b, t2), b.active - Exits(b, t1));
  }

  /** An advance that empties the queue. */
  lemma EmptiedTwice(b: Board, t1: nat, t2: nat)
    requires Full(b) && t1 <= t2 && Advance(b, t1).queue == [] && Ready(Advance(b, t1))
    ensures Resumes(b, t1, t2)
  {
    hide WellFormed, SlotEnd, HasRun, SlotStart, Update, Commit, ActiveIds, Ends, Exits, Consistent, Waiting,
         Promotions, Freed, Room, UpdateAll;
    var b1 := Advance(b, t1);
    PromotedFromQueue(b, t1);
    AdvancedQueue(b, t1);
    PromotionsDone(b1.proposals, b1.queue, Freed(b1, t2), Room(b1, t2), t2);
    if b.queue == [] {
      PromotionsDone(b.proposals, b.queue, Freed(b, t1), Room(b, t1), t1);
      PromotionsDone(b.proposals, b.queue, Freed(b, t2), Room(b, t2), t2);
    } else {
      RoomBelowFreed(b, t1);
      RoomGrows(b, t1, t2);
      FreedSplits(b, t1, t2);
      var late := Ends(b.proposals, Exits(b, t2) - Exits(b, t1));
      EmptiedResumes(b.proposals, b.queue, Freed(b, t1), late, Room(b, t1), Room(b, t2), t1, t2);
    }
  }

  /** An advance without exits or promotions leaves the same slots to be given back. */
  lemma IdleKeepsFreed(b: Board, t1: nat, t2: nat)
    requires Ready(b) && t1 <= t2 && Exits(b, t1) == {} && Promoted(b, t1) == [] && Ready(Advance(b, t1))
    ensures Freed(Advance(b, t1), t2) == Freed(b, t2) && Room(Advance(b, t1), t2) == Room(b, t2)
  {
    hide WellFormed, SlotEnd, HasRun, SlotStart, Update, Commit, Ends, Exits, Consistent, Waiting, Promoted;
    FreedSplits(b, t1, t2);
    LaterExits(b, t1, t2);
    FreedAfterAdvance(b, t1, t2);
    var late := Exits(b, t2) - Exits(b, t1);
    assert late == Exits(b, t2);
    assert Exits(Advance(b, t1), t2) == late + {};
    assert Advance(b, t1).active == b.active;
    assert Freed(Advance(b, t1), t2) == Ends(b.proposals, late) + multiset{};
  }

  /** An advance that promotes nothing because no slot was given back. */
  lemma IdleTwice(b: Board, t1: nat, t2: nat)
    requires Full(b) && t1 <= t2 && Exits(b, t1) == {} && b.queue != [] && Ready(Advance(b, t1))
    ensures Resumes(b, t1, t2)
  {
    hide WellFormed, SlotEnd, HasRun, SlotStart, Update, Commit, Ends, Exits, Consistent, Waiting, Promotions, Freed,
         UpdateAll, Room, ActiveIds;
    var b1 := Advance(b, t1);
    RoomBelowFreed(b, t1);
    PromotionsDone(b.proposals, b.queue, Freed(b, t1), Room(b, t1), t1);
    assert Promoted(b, t1) == [] && b1.queue == b.queue;
    QueueKeeps(b, t1);
    IdleKeepsFreed(b, t1, t2);
    PromotionsFrame(b.proposals, b1.proposals, b.queue, Freed(b, t2), Room(b, t2), t2);
  }

  /** Without any slots nothing is ever promoted. */
  lemma ClosedTwice(b: Board, t1: nat, t2: nat)
    requires Full(b) && b.cap == 0 && Ready(Advance(b, t1))
    ensures Resumes(b, t1, t2)
  {
    hide WellFormed, SlotEnd, HasRun, SlotStart, Update, Commit, Ends, Exits, Consistent, Waiting, Promotions, Freed,
         UpdateAll;
    var b1 := Advance(b, t1);
    PromotionsDone(b.proposals, b.queue, Freed(b, t1), Room(b, t1), t1);
    PromotionsDone(b.proposals, b.queue, Freed(b, t2), Room(b, t2), t2);
    PromotionsDone(b1.proposals, b1.queue, Freed(b1, t2), Room(b1, t2), t2);
  }

  /** A time by which all of the proposals have left their slots. */
  lemma {:induction false} AllEndBy(ps: Proposals, ids: set<ProposalId>) returns (t: nat)
    requires Running(ps, ids)
    ensures forall id :: id in ids ==> SlotEnd(ps[id]) <= t
    decreases ids
  {
    hide WellFormed, SlotEnd, HasRun;
    if ids == {} {
      t := 0;
    } else {
      var id :| id in ids;
      t := AllEndBy(ps, ids - {id});
      if t < SlotEnd(ps[id]) { t := SlotEnd(ps[id]); }
    }
  }

  /** After an advance at `t1`, a slot is only taken from a time after `t1`. */
  lemma StartsLater(b: Board, t1: nat, t2: nat)
    requires Ready(b) && t1 < t2 && Ready(Advance(b, t1)) && |Promoted(Advance(b, t1), t2)| > 0
    ensures HasRun(Promoted(Advance(b, t1), t2)[0]) && t1 < SlotStart(Promoted(Advance(b, t1), t2)[0])
  {
    hide WellFormed, SlotEnd, HasRun, SlotStart, Update, Commit, ActiveIds, Ends, Exits, Consistent, Waiting,
         Promotions, Freed, UpdateAll, Room, LateEnds, Least, Advance;
    var b1 := Advance(b, t1);
    if b1.queue == [] || Room(b1, t2) == 0 {
      PromotionsDone(b1.proposals, b1.queue, Freed(b1, t2), Room(b1, t2), t2);
    }
    FreedLater(b, t1, t2);
    PromotionsNext(b1.proposals, b1.queue, Freed(b1, t2), Room(b1, t2), t2);
  }

  lemma FreedLater(b: Board, t1: nat, t2: nat)
    requires Ready(b) && t1 <= t2 && Ready(Advance(b, t1))
    ensures forall e :: e in Freed(Advance(b, t1), t2) ==> t1 < e
  {
    hide WellFormed, SlotEnd, HasRun, SlotStart, Update, Commit, ActiveIds, Ends, Consistent, Waiting, Promoted,
         Advance;
    var b1 := Advance(b, t1);
    ExitsRun(b1, t2);
    forall id | id in Exits(b1, t2) ensures t1 < SlotEnd(b1.proposals[id]) {
      HoldsLater(b, t1, id);
    }
    EndsWithin(b1.proposals, Exits(b1, t2), t1, t2);
  }

  /** Whoever is active after an advance at `t1` gives the slot back after `t1`. */
  lemma HoldsLater(b: Board, t1: nat, id: ProposalId)
    requires Ready(b) && Ready(Advance(b, t1)) && id in Advance(b, t1).active
    ensures id in Advance(b, t1).proposals && HasRun(Advance(b, t1).proposals[id])
    ensures t1 < SlotEnd(Advance(b, t1).proposals[id])
  {
    hide WellFormed, SlotEnd, HasRun, SlotStart, Update, Commit, ActiveIds, Ends, Waiting, Promoted;
    PromotedFromQueue(b, t1);
    AdvancedAt(b, t1, id);
    ActiveIdsAre(Promoted(b, t1), id);
    ExitsRun(b, t1);
    if i :| 0 <= i < |Promoted(b, t1)| && Promoted(b, t1)[i].id == id {
    } else {
      ActiveIsRunning(b);
      UpdateChangesStatusOnly(b.proposals[id], t1);
    }
  }

  /** A slot given back and not filled, with something queued: a later advance would have used it. */
  lemma ForgottenSlot(b: Board, t1: nat) returns (t2: nat)
    requires Full(b) && 0 < b.cap < |b.active| && Exits(b, t1) != {} && Advance(b, t1).queue != []
    ensures t1 <= t2 && Ready(Advance(b, t1)) && Advance(Advance(b, t1), t2) != Advance(b, t2)
  {
    hide WellFormed, SlotEnd, HasRun, SlotStart, Update, Commit, ActiveIds, Ends, Exits, Consistent, Waiting,
         Promotions, Freed, Room, UpdateAll, Advance;
    AdvanceIsReady(b, t1);
    var b1, early := Advance(b, t1), Promoted(b, t1);
    AdvancedQueue(b, t1);
    t2 := LateEnough(b, t1);
    RoomBelowFreed(b, t1);
    RoomGrows(b, t1, t2);
    FreedSplits(b, t1, t2);
    var late := Ends(b.proposals, Exits(b, t2) - Exits(b, t1));
    UnfilledIsTaken(b.proposals, b.queue, Freed(b, t1), late, Room(b, t1), Room(b, t2), t1, t2);
    DifferentStarts(b, t1, t2);
  }

  /** A time by which all the slots held before and after an advance have been given back. */
  lemma LateEnough(b: Board, t1: nat) returns (t2: nat)
    requires Ready(b) && 0 < b.cap
    ensures t1 < t2 && 0 < Room(b, t2)
    ensures forall i :: 0 <= i < |Promoted(b, t1)| ==> SlotEnd(Promoted(b, t1)[i]) <= t2
  {
    hide WellFormed, SlotEnd, HasRun, SlotStart, Update, Ends, Exits, Promotions;
    PromotedFromQueue(b, t1);
    ActiveIsRunning(b);
    var ours := AllEndBy(b.proposals, b.active);
    var theirs := LastEndOf(Promoted(b, t1));
    t2 := t1 + 1 + ours + theirs;
    ExitsRun(b, t2);
    assert b.active - Exits(b, t2) == {};
  }

  lemma {:induction false} LastEndOf(r: seq<Proposal>) returns (t: nat)
    requires forall i :: 0 <= i < |r| ==> HasRun(r[i])
    ensures forall i :: 0 <= i < |r| ==> SlotEnd(r[i]) <= t
  {
    hide SlotEnd, HasRun;
    if r == [] {
      t := 0;
    } else {
      t := LastEndOf(r[1..]);
      if t < SlotEnd(r[0]) { t := SlotEnd(r[0]); }
      forall i | 0 <= i < |r| ensures SlotEnd(r[i]) <= t {
        if i > 0 { assert r[i] == r[1..][i - 1]; }
      }
    }
  }

  /** The next in the queue starts by `t1` on one board and after it, or not at all, on the other. */
  lemma DifferentStarts(b: Board, t1: nat, t2: nat)
    requires Ready(b) && Ready(Advance(b, t1)) && t1 < t2
    requires var n, whole := |Promoted(b, t1)|, Promoted(b, t2);
             n < |whole| && HasRun(whole[n]) && SlotStart(whole[n]) <= t1
    ensures Advance(Advance(b, t1), t2) != Advance(b, t2)
  {
    hide WellFormed, SlotEnd, HasRun, SlotStart, Update, Commit, ActiveIds, Ends, Exits, Consistent, Waiting,
         Promotions, Promoted, Advance, HasBegun;
    var b1, n, whole := Advance(b, t1), |Promoted(b, t1)|, Promoted(b, t2);
    var next := Promoted(b1, t2);
    AdvancedQueue(b, t1);
    AdvancedQueue(b, t2);
    AdvancedQueue(b1, t2);
    PromotedFromQueue(b, t2);
    PromotedFromQueue(b1, t2);
    if |next| > 0 {
      StartsLater(b, t1, t2);
      AdvancedAt(b, t2, whole[n].id);
      AdvancedAt(b1, t2, whole[n].id);
      assert next[0].id == b1.queue[0] == b.queue[n] == whole[n].id;
    } else {
      assert |Advance(b1, t2).queue| == |b.queue| - n;
      assert |Advance(b, t2).queue| == |b.queue| - |whole|;
    }
  }

  /** Whatever the cap: an advance at `t1` changes what later ones do exactly when more slots are held than the cap
      allows, some have been given back, and something is left in the queue that could have taken one. */
  lemma AdvanceTwiceIff(b: Board, t1: nat)
    requires Full(b)
    ensures Ready(Advance(b, t1))
    ensures (forall t2 :: t1 <= t2 ==> Advance(Advance(b, t1), t2) == Advance(b, t2)) <==>
              |b.active| <= b.cap || b.cap == 0 || Exits(b, t1) == {} || Advance(b, t1).queue == []
  {
    hide WellFormed, SlotEnd, HasRun, SlotStart, Update, Exits, Consistent, Waiting, Promotions, Advance, Resumes;
    AdvanceIsReady(b, t1);
    if 0 < b.cap < |b.active| && Exits(b, t1) != {} && Advance(b, t1).queue != [] {
      var t2 := ForgottenSlot(b, t1);
    } else {
      forall t2 | t1 <= t2 ensures Advance(Advance(b, t1), t2) == Advance(b, t2) {
        AdvanceTwiceHere(b, t1, t2);
      }
    }
  }

  lemma AdvanceTwiceHere(b: Board, t1: nat, t2: nat)
    requires Full(b) && t1 <= t2 && Ready(Advance(b, t1))
    requires |b.active| <= b.cap || b.cap == 0 || Exits(b, t1) == {} || Advance(b, t1).queue == []
    ensures Advance(Advance(b, t1), t2) == Advance(b, t2)
  {
    hide WellFormed, SlotEnd, HasRun, SlotStart, Update, Exits, Consistent, Waiting, Promotions, Resumes, Commit,
         ActiveIds, Promoted;
    if |b.active| <= b.cap {
      AdvanceTwice(b, t1, t2);
    } else {
      if b.cap == 0 {
        ClosedTwice(b, t1, t2);
      } else if Advance(b, t1).queue == [] {
        EmptiedTwice(b, t1, t2);
      } else {
        AdvancedQueue(b, t1);
        IdleTwice(b, t1, t2);
      }
      SameBoard(b, t1, t2);
    }
  }
}
