/** The queue scheduler: a bounded active set fed by a first-come-first-served queue, brought up to date lazily,
    with starts backdated to the moment a slot was given back. */
module VotingQueue {
  import opened VotingProposal

  type Proposals = map<ProposalId, Proposal>

  datatype Board = Board(proposals: Proposals, active: set<ProposalId>, queue: seq<ProposalId>, cap: nat)

  /** Ids match, and exactly the proposals in an active status are in the active set. */
  ghost predicate Consistent(b: Board) {
    && (forall id :: id in b.proposals ==> b.proposals[id].id == id && WellFormed(b.proposals[id]))
    && (forall id :: id in b.active <==> id in b.proposals && IsActive(b.proposals[id].status))
  }

  predicate IsWaiting(p: Proposal, id: ProposalId) { WellFormed(p) && p.id == id && p.status == Queued }

  predicate Waiting(ps: Proposals, queue: seq<ProposalId>) {
    && (forall i :: 0 <= i < |queue| ==> queue[i] in ps && IsWaiting(ps[queue[i]], queue[i]))
    && (forall i, j :: 0 <= i < j < |queue| ==> queue[i] != queue[j])
  }

  /** What every call relies on and keeps, whatever the cap. */
  ghost predicate Ready(b: Board) { Consistent(b) && Waiting(b.proposals, b.queue) }

  /** What holds between entry points on every run: a queue only behind active proposals that fill the cap. */
  ghost predicate Full(b: Board) { Ready(b) && (b.queue != [] ==> |b.active| >= b.cap) }

  /** What holds between entry points while the cap is never lowered: a queue only behind a full active set. */
  ghost predicate Valid(b: Board) {
    && Consistent(b) && Waiting(b.proposals, b.queue)
    && |b.active| <= b.cap
    && (b.queue != [] ==> |b.active| == b.cap)
  }

  // ---------------------------------------------------------------------------
  // Slots that have been given back
  // ---------------------------------------------------------------------------

  ghost predicate Running(ps: Proposals, ids: set<ProposalId>) {
    forall id :: id in ids ==> id in ps && WellFormed(ps[id]) && IsActive(ps[id].status) && HasRun(ps[id])
  }

  lemma ActiveIsRunning(b: Board)
    requires Consistent(b)
    ensures Running(b.proposals, b.active)
  {
    forall id | id in b.active ensures HasRun(b.proposals[id]) {
      ExitsAtSlotEnd(b.proposals[id], 0);
    }
  }

  /** The active proposals whose slot has ended by `now`. */
  ghost function Exits(b: Board, now: nat): set<ProposalId>
    requires Consistent(b)
  {
    set id | id in b.active && !IsActive(Update(b.proposals[id], now).status)
  }

  /** The times at which the given proposals leave their slots. */
  ghost function Ends(ps: Proposals, ids: set<ProposalId>): multiset<nat>
    requires Running(ps, ids)
  {
    if ids == {} then multiset{}
    else
      var id :| id in ids;
      multiset{SlotEnd(ps[id])} + Ends(ps, ids - {id})
  }

  /** The order in which ends are collected does not matter. */
  lemma {:induction false} EndsSplit(ps: Proposals, ids: set<ProposalId>, id: ProposalId)
    requires Running(ps, ids) && id in ids
    ensures Ends(ps, ids) == multiset{SlotEnd(ps[id])} + Ends(ps, ids - {id})
    decreases ids
  {
    var first :| first in ids && Ends(ps, ids) == multiset{SlotEnd(ps[first])} + Ends(ps, ids - {first});
    if first != id {
      EndsSplit(ps, ids - {first}, id);
      EndsSplit(ps, ids - {id}, first);
      assert ids - {first} - {id} == ids - {id} - {first};
    }
  }

  lemma {:induction false} EndsAdd(ps: Proposals, a: set<ProposalId>, b: set<ProposalId>)
    requires Running(ps, a) && Running(ps, b) && a !! b
    ensures Ends(ps, a + b) == Ends(ps, a) + Ends(ps, b)
    decreases a
  {
    hide WellFormed, HasRun, SlotEnd;
    if a == {} {
      assert a + b == b;
    } else {
      var id :| id in a;
      assert a + b - {id} == a - {id} + b;
      EndsAdd(ps, a - {id}, b);
      EndsSplit(ps, a, id);
      EndsSplit(ps, a + b, id);
    }
  }

  lemma {:induction false} EndsCount(ps: Proposals, ids: set<ProposalId>)
    requires Running(ps, ids)
    ensures |Ends(ps, ids)| == |ids|
    decreases ids
  {
    if ids != {} {
      var id :| id in ids;
      EndsSplit(ps, ids, id);
      EndsCount(ps, ids - {id});
    }
  }

  /** Every collected end is the end of one of the proposals. */
  lemma {:induction false} EndsWithin(ps: Proposals, ids: set<ProposalId>, lo: int, hi: nat)
    requires Running(ps, ids) && forall id :: id in ids ==> lo < SlotEnd(ps[id]) <= hi
    ensures forall e :: e in Ends(ps, ids) ==> lo < e <= hi
    decreases ids
  {
    if ids != {} {
      var id :| id in ids;
      EndsSplit(ps, ids, id);
      EndsWithin(ps, ids - {id}, lo, hi);
    }
  }

  /** Ends depend only on the proposals collected. */
  lemma {:induction false} EndsFrame(ps: Proposals, ps': Proposals, ids: set<ProposalId>)
    requires Running(ps, ids) && Running(ps', ids)
    requires forall id :: id in ids ==> SlotEnd(ps'[id]) == SlotEnd(ps[id])
    ensures Ends(ps', ids) == Ends(ps, ids)
    decreases ids
  {
    if ids != {} {
      var id :| id in ids;
      EndsSplit(ps, ids, id);
      EndsSplit(ps', ids, id);
      EndsFrame(ps, ps', ids - {id});
    }
  }

  // ---------------------------------------------------------------------------
  // Promotion
  // ---------------------------------------------------------------------------

  predicate IsLeast(m: multiset<nat>, x: nat) {
    x in m && forall y :: y in m ==> x <= y
  }

  lemma {:induction false} LeastExists(m: multiset<nat>)
    requires m != multiset{}
    ensures exists x :: IsLeast(m, x)
    decreases |m|
  {
    var y :| y in m;
    var rest := m - multiset{y};
    if rest == multiset{} {
      assert m == multiset{y};
      assert IsLeast(m, y);
    } else {
      LeastExists(rest);
      var x :| IsLeast(rest, x);
      assert m == rest + multiset{y};
      assert IsLeast(m, if x <= y then x else y);
    }
  }

  ghost function Least(m: multiset<nat>): (x: nat)
    requires m != multiset{}
    ensures IsLeast(m, x)
  {
    LeastExists(m);
    var x :| IsLeast(m, x);
    x
  }

  /** A freed slot is taken over at the moment it was freed, the earliest first; an empty one starts now. */
  ghost function NextStart(freed: multiset<nat>, now: nat): nat {
    if freed == multiset{} then now else Least(freed)
  }

  ghost function Popped(freed: multiset<nat>): (rest: multiset<nat>)
    ensures rest <= freed
  {
    if freed == multiset{} then freed else freed - multiset{Least(freed)}
  }

  /** The proposal at the head of the queue, put into a slot at `start` and brought up to `now`. */
  function Begun(p: Proposal, start: nat, now: nat): (q: Proposal)
    requires WellFormed(p) && p.status == Queued
    ensures HasBegun(q, p.id, now) && SlotStart(q) == start
  {
    ActivateStarts(p, start);
    ExitsAtSlotEnd(Activate(p, start), now);
    UpdateChangesStatusOnly(Activate(p, start), now);
    Update(Activate(p, start), now)
  }

  /** A proposal that was given a slot and brought up to `now`. */
  predicate HasBegun(p: Proposal, id: ProposalId, now: nat) {
    && p.id == id && WellFormed(p) && HasRun(p)
    && p.status != Queued && p.status != Created
    && SlotStart(p) <= SlotEnd(p)
    && (IsActive(p.status) <==> now < SlotEnd(p))
  }

  /** The promotions of one advance, in queue order, with `room` slots to fill. */
  ghost function Promotions(ps: Proposals, queue: seq<ProposalId>, freed: multiset<nat>, room: nat,
                            now: nat): (r: seq<Proposal>)
    requires Waiting(ps, queue)
    ensures FromFront(r, queue, now)
  {
    if queue == [] || room == 0 then []
    else
      WaitingTail(ps, queue);
      var p := Begun(ps[queue[0]], NextStart(freed, now), now);
      var rest := Promotions(ps, queue[1..], Handed(freed, p), if IsActive(p.status) then room - 1 else room, now);
      FromFrontStep(p, rest, queue, now);
      [p] + rest
  }

  /** The proposals at the front of the queue, in order. */
  predicate FromFront(r: seq<Proposal>, queue: seq<ProposalId>, now: nat) {
    |r| <= |queue| && forall i :: 0 <= i < |r| ==> HasBegun(r[i], queue[i], now)
  }

  lemma FromFrontStep(p: Proposal, r: seq<Proposal>, queue: seq<ProposalId>, now: nat)
    requires queue != [] && HasBegun(p, queue[0], now) && FromFront(r, queue[1..], now)
    ensures FromFront([p] + r, queue, now)
  {
  }

  // ---------------------------------------------------------------------------
  // Two advances are one
  // ---------------------------------------------------------------------------

  ghost function UpdateAll(r: seq<Proposal>, t: nat): (u: seq<Proposal>)
    requires forall i :: 0 <= i < |r| ==> WellFormed(r[i])
    ensures |u| == |r| && forall i :: 0 <= i < |r| ==> u[i] == Update(r[i], t)
  {
    if r == [] then [] else [Update(r[0], t)] + UpdateAll(r[1..], t)
  }

  predicate LeavesBy(p: Proposal, t: nat) { IsActive(p.status) && HasRun(p) && SlotEnd(p) <= t }

  /** Slots that proposals of `r` still hold but give back by `t`. */
  ghost function LateEnds(r: seq<Proposal>, t: nat): multiset<nat> {
    if r == [] then multiset{}
    else if LeavesBy(r[0], t) then multiset{SlotEnd(r[0])} + LateEnds(r[1..], t)
    else LateEnds(r[1..], t)
  }

  /** Slots freed by `t1` are all taken over before any slot freed later. */
  lemma EarlyComesFirst(freed: multiset<nat>, late: multiset<nat>, t: nat)
    requires freed != multiset{} && (forall e :: e in freed ==> e <= t) && (forall e :: e in late ==> t < e)
    ensures Least(freed + late) == Least(freed) <= t
    ensures Popped(freed + late) == Popped(freed) + late
    ensures |Popped(freed)| == |freed| - 1
  {
    var x, y := Least(freed), Least(freed + late);
    assert x in freed + late && y in freed + late;
    assert y in freed;
  }

  /** Bringing a proposal up to `t1` and then to `t2` is bringing it up to `t2`. */
  lemma BegunTwice(p: Proposal, start: nat, t1: nat, t2: nat)
    requires IsWaiting(p, p.id) && t1 <= t2
    ensures Begun(p, start, t2) == Update(Begun(p, start, t1), t2)
    ensures SlotEnd(Begun(p, start, t1)) == SlotEnd(Begun(p, start, t2))
  {
    hide Update, WellFormed, SlotEnd, HasRun, Activate;
    ActivateStarts(p, start);
    ExitsAtSlotEnd(Activate(p, start), t1);
    UpdateTwice(Activate(p, start), t1, t2);
    UpdateChangesStatusOnly(Activate(p, start), t1);
    UpdateChangesStatusOnly(Activate(p, start), t2);
  }

  lemma WaitingTail(ps: Proposals, queue: seq<ProposalId>)
    requires Waiting(ps, queue) && queue != []
    ensures queue[0] in ps && IsWaiting(ps[queue[0]], queue[0]) && Waiting(ps, queue[1..])
  {
  }

  /** The promotions at `t2` are those at `t1`, brought up to `t2`, followed by those into slots freed in between. */
  ghost predicate Splits(ps: Proposals, queue: seq<ProposalId>, freed: multiset<nat>, late: multiset<nat>, t1: nat,
                         t2: nat)
    requires Waiting(ps, queue)
  {
    var early := Promotions(ps, queue, freed, |freed|, t1);
    var late' := late + LateEnds(early, t2);
    && Waiting(ps, queue[|early|..])
    && Promotions(ps, queue, freed + late, |freed + late|, t2)
    == UpdateAll(early, t2) + Promotions(ps, queue[|early|..], late', |late'|, t2)
  }

  lemma {:induction false} PromotionsSplit(ps: Proposals, queue: seq<ProposalId>, freed: multiset<nat>,
                                           late: multiset<nat>, t1: nat, t2: nat)
    requires Waiting(ps, queue) && t1 <= t2
    requires (forall e :: e in freed ==> e <= t1) && (forall e :: e in late ==> t1 < e <= t2)
    ensures Splits(ps, queue, freed, late, t1, t2)
    decreases |queue|
  {
    hide WellFormed, Update, SlotEnd, HasRun, Begun, Least, Waiting, SlotStart, Splits, Handed, Lingering, Popped;
    if queue == [] || freed == multiset{} {
      SplitBase(ps, queue, freed, late, t1, t2);
    } else {
      WaitingTail(ps, queue);
      var p1, p2 := Begun(ps[queue[0]], Least(freed), t1), Begun(ps[queue[0]], Least(freed), t2);
      EarlyComesFirst(freed, late, t1);
      BegunTwice(ps[queue[0]], Least(freed), t1, t2);
      HandedSplits(freed, late, p1, p2, t1, t2);
      PromotionsSplit(ps, queue[1..], Handed(freed, p1), Lingering(late, p1, t2), t1, t2);
      SplitStep(ps, queue, freed, late, t1, t2);
    }
  }

  /** The slots freed between the two times, with that of `p` if it is one of them. */
  ghost function Lingering(late: multiset<nat>, p: Proposal, t: nat): multiset<nat> {
    if LeavesBy(p, t) then late + multiset{SlotEnd(p)} else late
  }

  /** The slot of `p` goes to the early ones, to the late ones, or stays taken. */
  lemma HandedSplits(freed: multiset<nat>, late: multiset<nat>, p1: Proposal, p2: Proposal, t1: nat, t2: nat)
    requires freed != multiset{} && Popped(freed + late) == Popped(freed) + late && t1 <= t2
    requires (forall e :: e in freed ==> e <= t1) && (forall e :: e in late ==> t1 < e <= t2)
    requires HasBegun(p1, p1.id, t1) && HasBegun(p2, p2.id, t2) && SlotEnd(p1) == SlotEnd(p2)
    ensures Handed(freed + late, p2) == Handed(freed, p1) + Lingering(late, p1, t2)
    ensures forall e :: e in Handed(freed, p1) ==> e <= t1
    ensures forall e :: e in Lingering(late, p1, t2) ==> t1 < e <= t2
  {
    hide WellFormed, SlotEnd, HasRun, Least, SlotStart, Popped;
    var e := multiset{SlotEnd(p1)};
    if !IsActive(p1.status) {
      assert Popped(freed) + late + e == Popped(freed) + e + late;
    } else if !IsActive(p2.status) {
      assert Popped(freed) + late + e == Popped(freed) + (late + e);
    }
  }

  lemma SplitBase(ps: Proposals, queue: seq<ProposalId>, freed: multiset<nat>, late: multiset<nat>, t1: nat, t2: nat)
    requires Waiting(ps, queue) && (queue == [] || freed == multiset{})
    ensures Splits(ps, queue, freed, late, t1, t2)
  {
    hide Promotions, LateEnds;
    NoPromotions(ps, queue, freed, t1);
    NoPromotions(ps, queue, freed, t2);
    assert queue[0..] == queue;
    assert late + LateEnds([], t2) == late;
    if freed == multiset{} {
      assert freed + late == late;
    } else {
      NoPromotions(ps, queue, freed + late, t2);
      NoPromotions(ps, queue, late, t2);
    }
  }

  lemma SplitStep(ps: Proposals, queue: seq<ProposalId>, freed: multiset<nat>, late: multiset<nat>, t1: nat, t2: nat)
    requires Waiting(ps, queue) && queue != [] && freed != multiset{} && Least(freed + late) == Least(freed)
    requires queue[0] in ps && IsWaiting(ps[queue[0]], queue[0]) && Waiting(ps, queue[1..])
    requires var p1, p2 := Begun(ps[queue[0]], Least(freed), t1), Begun(ps[queue[0]], Least(freed), t2);
             && p2 == Update(p1, t2)
             && Handed(freed + late, p2) == Handed(freed, p1) + Lingering(late, p1, t2)
             && Splits(ps, queue[1..], Handed(freed, p1), Lingering(late, p1, t2), t1, t2)
    ensures Splits(ps, queue, freed, late, t1, t2)
  {
    hide WellFormed, Update, SlotEnd, HasRun, Begun, Least, Promotions, LateEnds, Waiting, SlotStart, Handed,
         UpdateAll, IsActive;
    var p1, p2 := Begun(ps[queue[0]], Least(freed), t1), Begun(ps[queue[0]], Least(freed), t2);
    PromotionsStep(ps, queue, freed, t1);
    PromotionsStep(ps, queue, freed + late, t2);
    var early := Promotions(ps, queue[1..], Handed(freed, p1), |Handed(freed, p1)|, t1);
    LateEndsStep(p1, early, t2);
    assert late + LateEnds([p1] + early, t2) == Lingering(late, p1, t2) + LateEnds(early, t2);
    assert queue[1 + |early|..] == queue[1..][|early|..];
    UpdateAllStep(p1, early, t2);
    var late' := Lingering(late, p1, t2) + LateEnds(early, t2);
    SeqAssociates([p2], UpdateAll(early, t2), Promotions(ps, queue[1..][|early|..], late', |late'|, t2));
  }

  lemma UpdateAllStep(p: Proposal, r: seq<Proposal>, t: nat)
    requires WellFormed(p) && forall i :: 0 <= i < |r| ==> WellFormed(r[i])
    ensures UpdateAll([p] + r, t) == [Update(p, t)] + UpdateAll(r, t)
  {
    assert ([p] + r)[1..] == r;
  }

  lemma SeqAssociates<T>(a: seq<T>, b: seq<T>, c: seq<T>)
    ensures a + (b + c) == a + b + c
  {
  }

  lemma NoPromotions(ps: Proposals, queue: seq<ProposalId>, freed: multiset<nat>, now: nat)
    requires Waiting(ps, queue) && (queue == [] || freed == multiset{})
    ensures Promotions(ps, queue, freed, |freed|, now) == []
    ensures LateEnds([], now) == multiset{}
  {
  }

  /** The free slots once `p` has taken the earliest of them. */
  ghost function Handed(freed: multiset<nat>, p: Proposal): multiset<nat>
    requires HasRun(p)
  {
    if IsActive(p.status) then Popped(freed) else Popped(freed) + multiset{SlotEnd(p)}
  }

  /** One promotion. */
  lemma PromotionsNext(ps: Proposals, queue: seq<ProposalId>, freed: multiset<nat>, room: nat, now: nat)
    requires Waiting(ps, queue) && queue != [] && room > 0
    ensures queue[0] in ps && IsWaiting(ps[queue[0]], queue[0]) && Waiting(ps, queue[1..])
    ensures var p := Begun(ps[queue[0]], NextStart(freed, now), now);
            Promotions(ps, queue, freed, room, now)
            == [p] + Promotions(ps, queue[1..], Handed(freed, p), if IsActive(p.status) then room - 1 else room, now)
  {
    hide WellFormed, Update, SlotEnd, HasRun, Begun, Least, Waiting, SlotStart;
    WaitingTail(ps, queue);
  }

  /** One promotion when all the room there is comes from freed slots. */
  lemma PromotionsStep(ps: Proposals, queue: seq<ProposalId>, freed: multiset<nat>, now: nat)
    requires Waiting(ps, queue) && queue != [] && freed != multiset{}
    ensures Waiting(ps, queue[1..])
    ensures var p := Begun(ps[queue[0]], Least(freed), now);
            Promotions(ps, queue, freed, |freed|, now)
            == [p] + Promotions(ps, queue[1..], Handed(freed, p), |Handed(freed, p)|, now)
  {
    hide WellFormed, Update, SlotEnd, HasRun, Begun, Least, Waiting, SlotStart, Promotions;
    PromotionsNext(ps, queue, freed, |freed|, now);
    var p := Begun(ps[queue[0]], Least(freed), now);
    assert |Handed(freed, p)| == if IsActive(p.status) then |freed| - 1 else |freed|;
  }

  lemma LateEndsStep(p: Proposal, r: seq<Proposal>, t: nat)
    ensures LateEnds([p] + r, t) == (if LeavesBy(p, t) then multiset{SlotEnd(p)} else multiset{}) + LateEnds(r, t)
  {
    assert ([p] + r)[1..] == r;
  }
}
