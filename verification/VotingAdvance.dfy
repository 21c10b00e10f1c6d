/** Advancing the whole board: what one advance commits, and what it keeps. */
module VotingAdvance {
  import opened VotingProposal
  import opened VotingQueue

  /** Slots not held at `now` by the proposals that are still active then. */
  ghost function Room(b: Board, now: nat): nat
    requires Consistent(b)
  {
    var held := |b.active - Exits(b, now)|;
    if held < b.cap then b.cap - held else 0
  }

  lemma ExitsRun(b: Board, now: nat)
    requires Consistent(b)
    ensures Running(b.proposals, Exits(b, now))
    ensures forall id :: id in Exits(b, now) <==> id in b.active && SlotEnd(b.proposals[id]) <= now
  {
    hide WellFormed, SlotEnd, HasRun, SlotStart, Update;
    ActiveIsRunning(b);
    forall id | id in b.active ensures id in Exits(b, now) <==> SlotEnd(b.proposals[id]) <= now {
      ExitsAtSlotEnd(b.proposals[id], now);
    }
  }

  ghost function Freed(b: Board, now: nat): multiset<nat>
    requires Consistent(b)
  {
    ExitsRun(b, now);
    Ends(b.proposals, Exits(b, now))
  }

  ghost function Promoted(b: Board, now: nat): seq<Proposal>
    requires Consistent(b) && Waiting(b.proposals, b.queue)
  {
    Promotions(b.proposals, b.queue, Freed(b, now), Room(b, now), now)
  }

  /** Active proposals brought up to `now`; the others as stored. */
  ghost function Refreshed(b: Board, now: nat): Proposals
    requires Consistent(b)
  {
    map id | id in b.proposals :: if id in b.active then Update(b.proposals[id], now) else b.proposals[id]
  }

  /** Storing proposals one after the other. */
  function Commit(ps: Proposals, r: seq<Proposal>): Proposals
    decreases |r|
  {
    if r == [] then ps else Commit(ps[r[0].id := r[0]], r[1..])
  }

  function ActiveIds(r: seq<Proposal>): set<ProposalId> {
    if r == [] then {} else (if IsActive(r[0].status) then {r[0].id} else {}) + ActiveIds(r[1..])
  }

  /** What `internal_advance_queue` leaves behind. */
  ghost function Advance(b: Board, now: nat): Board
    requires Consistent(b) && Waiting(b.proposals, b.queue)
  {
    var r := Promoted(b, now);
    Board(Commit(Refreshed(b, now), r), b.active - Exits(b, now) + ActiveIds(r), b.queue[|r|..], b.cap)
  }

  // ---------------------------------------------------------------------------
  // Reading the committed board
  // ---------------------------------------------------------------------------

  ghost predicate DistinctIds(r: seq<Proposal>) {
    forall i, j :: 0 <= i < j < |r| ==> r[i].id != r[j].id
  }

  lemma {:induction false} CommitKeeps(ps: Proposals, r: seq<Proposal>, id: ProposalId)
    requires forall i :: 0 <= i < |r| ==> r[i].id != id
    ensures id in Commit(ps, r) <==> id in ps
    ensures id in ps ==> Commit(ps, r)[id] == ps[id]
    decreases |r|
  {
    if r != [] { CommitKeeps(ps[r[0].id := r[0]], r[1..], id); }
  }

  lemma {:induction false} CommitWrites(ps: Proposals, r: seq<Proposal>, i: nat)
    requires i < |r| && DistinctIds(r)
    ensures r[i].id in Commit(ps, r) && Commit(ps, r)[r[i].id] == r[i]
    decreases |r|
  {
    if i == 0 {
      CommitKeeps(ps[r[0].id := r[0]], r[1..], r[0].id);
    } else {
      CommitWrites(ps[r[0].id := r[0]], r[1..], i - 1);
    }
  }

  lemma {:induction false} ActiveIdsAre(r: seq<Proposal>, id: ProposalId)
    ensures id in ActiveIds(r) <==> exists i :: 0 <= i < |r| && r[i].id == id && IsActive(r[i].status)
  {
    if r != [] {
      ActiveIdsAre(r[1..], id);
      if id in ActiveIds(r[1..]) {
        var i :| 0 <= i < |r[1..]| && r[1..][i].id == id && IsActive(r[1..][i].status);
        assert r[i + 1].id == id;
      }
      if exists i :: 0 < i < |r| && r[i].id == id && IsActive(r[i].status) {
        var i :| 0 < i < |r| && r[i].id == id && IsActive(r[i].status);
        assert r[1..][i - 1] == r[i];
      }
    }
  }

  /** Proposals in `r` were promoted from the front of the queue. */
  ghost predicate FromQueue(b: Board, r: seq<Proposal>, now: nat) {
    && |r| <= |b.queue|
    && DistinctIds(r)
    && forall i :: 0 <= i < |r| ==> r[i].id == b.queue[i] && r[i].id in b.proposals && r[i].id !in b.active
                                    && HasBegun(r[i], r[i].id, now)
  }

  lemma PromotedFromQueue(b: Board, now: nat)
    requires Consistent(b) && Waiting(b.proposals, b.queue)
    ensures FromQueue(b, Promoted(b, now), now)
  {
    hide WellFormed, SlotEnd, HasRun, SlotStart, Promotions;
  }

  /** The stored proposal after an advance, id by id. */
  lemma AdvancedAt(b: Board, now: nat, id: ProposalId)
    requires Consistent(b) && Waiting(b.proposals, b.queue)
    ensures var r := Promoted(b, now);
            var ps := Advance(b, now).proposals;
            && (id in ps <==> id in b.proposals)
            && (forall i :: 0 <= i < |r| && r[i].id == id ==> id in ps && ps[id] == r[i])
            && (id in b.proposals && (forall i :: 0 <= i < |r| ==> r[i].id != id) ==>
                  ps[id] == if id in b.active then Update(b.proposals[id], now) else b.proposals[id])
  {
    hide WellFormed, SlotEnd, HasRun, SlotStart, Promoted, Update, Commit, HasBegun;
    var r := Promoted(b, now);
    PromotedFromQueue(b, now);
    if i :| 0 <= i < |r| && r[i].id == id {
      CommitWrites(Refreshed(b, now), r, i);
    } else {
      CommitKeeps(Refreshed(b, now), r, id);
    }
  }

  lemma AdvancedQueue(b: Board, now: nat)
    requires Consistent(b) && Waiting(b.proposals, b.queue)
    ensures |Promoted(b, now)| <= |b.queue|
    ensures Advance(b, now).queue == b.queue[|Promoted(b, now)|..] && Advance(b, now).cap == b.cap
  {
  }

  /** After an advance exactly the proposals in an active status are in the active set. */
  lemma AdvanceIsConsistent(b: Board, now: nat)
    requires Consistent(b) && Waiting(b.proposals, b.queue)
    ensures Consistent(Advance(b, now))
  {
    hide WellFormed, SlotEnd, HasRun, SlotStart, Promoted, Update, Commit, ActiveIds;
    var b', r := Advance(b, now), Promoted(b, now);
    PromotedFromQueue(b, now);
    forall id
      ensures id in b'.proposals ==> b'.proposals[id].id == id && WellFormed(b'.proposals[id])
      ensures id in b'.active <==> id in b'.proposals && IsActive(b'.proposals[id].status)
    {
      AdvancedAt(b, now, id);
      ActiveIdsAre(r, id);
      if id in b.proposals { UpdateChangesStatusOnly(b.proposals[id], now); }
      if i :| 0 <= i < |r| && r[i].id == id {
      } else {
      }
    }
  }

  // ---------------------------------------------------------------------------
  // A queue only behind a full active set
  // ---------------------------------------------------------------------------

  /** One more promoted proposal counts once, if it is active. */
  lemma ActiveIdsStep(p: Proposal, r: seq<Proposal>)
    requires forall i :: 0 <= i < |r| ==> r[i].id != p.id
    ensures |ActiveIds([p] + r)| == |ActiveIds(r)| + if IsActive(p.status) then 1 else 0
  {
    ActiveIdsAre(r, p.id);
    assert ([p] + r)[1..] == r;
  }

  /** No proposal is promoted twice. */
  lemma FrontIsDistinct(ps: Proposals, queue: seq<ProposalId>, p: Proposal, r: seq<Proposal>, now: nat)
    requires Waiting(ps, queue) && FromFront([p] + r, queue, now)
    ensures forall i :: 0 <= i < |r| ==> r[i].id != p.id
  {
    assert ([p] + r)[0] == p && forall i :: 0 <= i < |r| ==> ([p] + r)[i + 1] == r[i];
    forall i | 0 <= i < |r| ensures r[i].id != p.id {
      assert ([p] + r)[i + 1] == r[i];
    }
  }

  /** Promotion fills the room there is, unless the queue runs out first. */
  lemma {:induction false} PromotionsFill(ps: Proposals, queue: seq<ProposalId>, freed: multiset<nat>, room: nat,
                                          now: nat)
    requires Waiting(ps, queue)
    ensures var r := Promotions(ps, queue, freed, room, now);
            |ActiveIds(r)| <= room && (|r| < |queue| ==> |ActiveIds(r)| == room)
    decreases |queue|
  {
    if queue != [] && room > 0 {
      hide WellFormed, SlotEnd, HasRun, SlotStart, Least, Begun, Handed, NextStart, Promotions, ActiveIds, Waiting,
           FromFront;
      PromotionsNext(ps, queue, freed, room, now);
      var p := Begun(ps[queue[0]], NextStart(freed, now), now);
      var room' := if IsActive(p.status) then room - 1 else room;
      var r := Promotions(ps, queue[1..], Handed(freed, p), room', now);
      PromotionsFill(ps, queue[1..], Handed(freed, p), room', now);
      FrontIsDistinct(ps, queue, p, r, now);
      ActiveIdsStep(p, r);
    }
  }

  lemma WaitingLater(ps: Proposals, ps': Proposals, queue: seq<ProposalId>, n: nat)
    requires Waiting(ps, queue) && n <= |queue|
    requires forall i :: n <= i < |queue| ==> queue[i] in ps' && ps'[queue[i]] == ps[queue[i]]
    ensures Waiting(ps', queue[n..])
  {
    hide IsWaiting;
  }

  lemma QueueKeeps(b: Board, now: nat)
    requires Consistent(b) && Waiting(b.proposals, b.queue)
    ensures Waiting(Advance(b, now).proposals, Advance(b, now).queue)
    ensures forall i :: |Promoted(b, now)| <= i < |b.queue| ==>
              b.queue[i] in Advance(b, now).proposals
                   && Advance(b, now).proposals[b.queue[i]] == b.proposals[b.queue[i]]
    ensures var b' := Advance(b, now);
            forall i :: 0 <= i < |b'.queue| ==> b'.queue[i] in b.proposals && b'.queue[i] in b'.proposals
                                                && b'.proposals[b'.queue[i]] == b.proposals[b'.queue[i]]
  {
    hide WellFormed, SlotEnd, HasRun, SlotStart, Promoted, Update, Commit, ActiveIds, HasBegun;
    var r := Promoted(b, now);
    PromotedFromQueue(b, now);
    forall i | |r| <= i < |b.queue|
      ensures b.queue[i] in Advance(b, now).proposals
           && Advance(b, now).proposals[b.queue[i]] == b.proposals[b.queue[i]]
    {
      AdvancedAt(b, now, b.queue[i]);
    }
    WaitingLater(b.proposals, Advance(b, now).proposals, b.queue, |r|);
  }

  /** The number of active proposals after an advance. */
  lemma AdvanceCounts(b: Board, now: nat)
    requires Consistent(b) && Waiting(b.proposals, b.queue)
    ensures |Advance(b, now).active| == |b.active - Exits(b, now)| + |ActiveIds(Promoted(b, now))|
  {
    hide WellFormed, SlotEnd, HasRun, SlotStart, Promoted, Update, Commit, ActiveIds, HasBegun;
    var r := Promoted(b, now);
    PromotedFromQueue(b, now);
    assert (b.active - Exits(b, now)) !! ActiveIds(r) by {
      forall id | id in ActiveIds(r) ensures id !in b.active { ActiveIdsAre(r, id); }
    }
  }

  /** An advance leaves the active set within the cap, and full if anything is still queued, exactly when the slots
      still held fit in the cap. */
  lemma AdvanceIsValid(b: Board, now: nat)
    requires Ready(b)
    ensures Valid(Advance(b, now)) <==> |b.active - Exits(b, now)| <= b.cap
  {
    hide WellFormed, SlotEnd, HasRun, SlotStart, Promotions, Update, Commit, ActiveIds, HasBegun, Consistent, Waiting;
    AdvanceIsConsistent(b, now);
    QueueKeeps(b, now);
    AdvanceCounts(b, now);
    PromotionsFill(b.proposals, b.queue, Freed(b, now), Room(b, now), now);
  }

  /** Whatever the cap, an advance fills it while anything is queued, and holds no more slots than were held or
      allowed. */
  lemma AdvanceIsFull(b: Board, now: nat)
    requires Ready(b)
    ensures Full(Advance(b, now))
    ensures |Advance(b, now).active| <= b.cap || |Advance(b, now).active| <= |b.active|
  {
    hide WellFormed, SlotEnd, HasRun, SlotStart, Promotions, Update, Commit, ActiveIds, HasBegun, Consistent, Waiting;
    AdvanceIsConsistent(b, now);
    QueueKeeps(b, now);
    AdvanceCounts(b, now);
    PromotionsFill(b.proposals, b.queue, Freed(b, now), Room(b, now), now);
    assert |b.active - Exits(b, now)| <= |b.active| by {
      assert b.active == b.active - Exits(b, now) + (b.active * Exits(b, now));
    }
  }

  lemma StaysWithinCap(b: Board, now: nat)
    requires Consistent(b) && |b.active| <= b.cap
    ensures |b.active - Exits(b, now)| <= b.cap
  {
    SubsetIsSmaller(b.active - Exits(b, now), b.active);
  }

  /** An advance leaves a board that the next one can start from. */
  lemma AdvanceIsReady(b: Board, now: nat)
    requires Ready(b)
    ensures Ready(Advance(b, now)) && (Valid(b) ==> Valid(Advance(b, now)))
  {
    hide Consistent, Waiting, Advance;
    AdvanceIsConsistent(b, now);
    QueueKeeps(b, now);
    if Valid(b) {
      StaysWithinCap(b, now);
      AdvanceIsValid(b, now);
    }
  }

  lemma {:induction false} SubsetIsSmaller(a: set<ProposalId>, b: set<ProposalId>)
    requires a <= b
    ensures |a| <= |b|
  {
    assert b == a + (b - a);
  }
}
