/** Slots over whole runs: at no instant do more active windows overlap than there are slots, and proposals start
    in the order in which they were approved. */
module VotingSlots {
  import opened VotingProposal
  import opened VotingQueue

  // ---------------------------------------------------------------------------
  // Slots handed on inside one advance
  // ---------------------------------------------------------------------------

  /** How many of the freed slots were free by `t`. */
  ghost function CountBy(freed: multiset<nat>, t: nat): nat
    decreases |freed|
  {
    if freed == multiset{} then 0
    else
      var x :| x in freed;
      (if x <= t then 1 else 0) + CountBy(freed - multiset{x}, t)
  }

  lemma {:induction false} CountBySplit(freed: multiset<nat>, t: nat, x: nat)
    requires x in freed
    ensures CountBy(freed, t) == (if x <= t then 1 else 0) + CountBy(freed - multiset{x}, t)
    decreases |freed|
  {
    var y :| y in freed && CountBy(freed, t) == (if y <= t then 1 else 0) + CountBy(freed - multiset{y}, t);
    if y != x {
      CountBySplit(freed - multiset{y}, t, x);
      CountBySplit(freed - multiset{x}, t, y);
      assert freed - multiset{y} - multiset{x} == freed - multiset{x} - multiset{y};
    }
  }

  lemma CountByAdd(freed: multiset<nat>, t: nat, x: nat)
    ensures CountBy(freed + multiset{x}, t) == (if x <= t then 1 else 0) + CountBy(freed, t)
  {
    CountBySplit(freed + multiset{x}, t, x);
    assert freed + multiset{x} - multiset{x} == freed;
  }

  /** The window of a proposal that has held a slot and, if it is not active, gave it back at its end. */
  predicate Covers(p: Proposal, t: nat)
    requires HasRun(p)
  {
    SlotStart(p) <= t && (IsActive(p.status) || t < SlotEnd(p))
  }

  ghost function CoverIds(r: seq<Proposal>, t: nat): set<ProposalId>
    requires forall i :: 0 <= i < |r| ==> HasRun(r[i])
  {
    if r == [] then {} else (if Covers(r[0], t) then {r[0].id} else {}) + CoverIds(r[1..], t)
  }

  lemma CoverIdsStep(p: Proposal, r: seq<Proposal>, t: nat)
    requires HasRun(p) && forall i :: 0 <= i < |r| ==> HasRun(r[i])
    ensures |CoverIds([p] + r, t)| <= |CoverIds(r, t)| + if Covers(p, t) then 1 else 0
  {
    hide HasRun, Covers;
    assert ([p] + r)[1..] == r;
  }

  lemma {:induction false} CoverIdsAre(r: seq<Proposal>, t: nat, id: ProposalId)
    requires forall i :: 0 <= i < |r| ==> HasRun(r[i])
    ensures id in CoverIds(r, t) <==> exists i :: 0 <= i < |r| && r[i].id == id && Covers(r[i], t)
  {
    hide HasRun, Covers;
    if r != [] {
      CoverIdsAre(r[1..], t, id);
      if id in CoverIds(r[1..], t) {
        var i :| 0 <= i < |r[1..]| && r[1..][i].id == id && Covers(r[1..][i], t);
        assert r[i + 1].id == id;
      }
      if i :| 0 < i < |r| && r[i].id == id && Covers(r[i], t) {
        assert r[1..][i - 1] == r[i];
      }
    }
  }

  /** Taking over one freed slot: the new window covers what the free slot stood for, and no more. */
  lemma HandOver(freed: multiset<nat>, p: Proposal, now: nat, t: nat)
    requires HasBegun(p, p.id, now) && SlotStart(p) == NextStart(freed, now) && t < now
    ensures (if Covers(p, t) then 1 else 0) + CountBy(Handed(freed, p), t) <= CountBy(freed, t)
  {
    hide HasRun, SlotStart, SlotEnd, Least, CountBy, WellFormed;
    if freed != multiset{} {
      CountBySplit(freed, t, Least(freed));
    }
    if !IsActive(p.status) {
      CountByAdd(Popped(freed), t, SlotEnd(p));
    }
  }

  /** Before `now`, the promoted proposals cover no instant more often than freed slots were free. */
  lemma {:induction false} PromotionsCover(ps: Proposals, queue: seq<ProposalId>, freed: multiset<nat>, room: nat,
                                           now: nat, t: nat)
    requires Waiting(ps, queue) && t < now
    ensures |CoverIds(Promotions(ps, queue, freed, room, now), t)| <= CountBy(freed, t)
    decreases |queue|
  {
    if queue != [] && room > 0 {
      hide WellFormed, SlotEnd, HasRun, SlotStart, Least, Begun, Handed, NextStart, Promotions, CoverIds, Waiting,
           FromFront, CountBy, Covers;
      PromotionsNext(ps, queue, freed, room, now);
      var p := Begun(ps[queue[0]], NextStart(freed, now), now);
      var room' := if IsActive(p.status) then room - 1 else room;
      var r := Promotions(ps, queue[1..], Handed(freed, p), room', now);
      PromotionsCover(ps, queue[1..], Handed(freed, p), room', now, t);
      HandOver(freed, p, now, t);
      FrontHasRun(r, queue[1..], now);
      CoverIdsStep(p, r, t);
    }
  }

  lemma FrontHasRun(r: seq<Proposal>, queue: seq<ProposalId>, now: nat)
    requires FromFront(r, queue, now)
    ensures forall i :: 0 <= i < |r| ==> HasRun(r[i])
  {
  }

  /** Starts are nondecreasing in queue order, none before `from` and none after `now`. */
  ghost predicate InOrder(r: seq<Proposal>, from: nat, now: nat) {
    && (forall i :: 0 <= i < |r| ==> HasRun(r[i]) && from <= SlotStart(r[i]) <= now)
    && (forall i, j :: 0 <= i < j < |r| ==> SlotStart(r[i]) <= SlotStart(r[j]))
  }

  lemma InOrderStep(p: Proposal, r: seq<Proposal>, from: nat, now: nat)
    requires HasRun(p) && from <= SlotStart(p) <= now && InOrder(r, SlotStart(p), now)
    ensures InOrder([p] + r, from, now)
  {
    hide HasRun, SlotStart;
  }

  lemma {:induction false} PromotionsInOrder(ps: Proposals, queue: seq<ProposalId>, freed: multiset<nat>, room: nat,
                                             now: nat, from: nat)
    requires Waiting(ps, queue) && from <= now && forall e :: e in freed ==> from <= e <= now
    ensures InOrder(Promotions(ps, queue, freed, room, now), from, now)
    decreases |queue|
  {
    if queue != [] && room > 0 {
      hide WellFormed, SlotEnd, HasRun, SlotStart, Begun, Promotions, Waiting, FromFront, InOrder;
      PromotionsNext(ps, queue, freed, room, now);
      var start := NextStart(freed, now);
      var p := Begun(ps[queue[0]], start, now);
      var room' := if IsActive(p.status) then room - 1 else room;
      PromotionsInOrder(ps, queue[1..], Handed(freed, p), room', now, start);
      InOrderStep(p, Promotions(ps, queue[1..], Handed(freed, p), room', now), from, now);
    }
  }
}
