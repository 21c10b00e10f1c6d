/** The voting contract: proposals, active set and queue changed in place. */
module VotingContract {
  import opened Options
  import opened VotingProposal
  import opened VotingQueue
  import opened VotingAdvance
  import opened VotingActions
  import opened VotingScheduler
  import opened VotingViews

  lemma ConsistentAt(b: Board, id: ProposalId)
    requires Consistent(b)
    ensures id in b.proposals ==> WellFormed(b.proposals[id]) && b.proposals[id].id == id
  {
  }

  predicate CanVeto(p: Proposal) {
    (p.flow == Classic && p.status == Timelock) || (p.flow == FastTrack && p.status in {Voting, Scheduled})
  }

  class Contract {
    var proposals: map<ProposalId, Proposal>
    var active: set<ProposalId>
    var queue: seq<ProposalId>
    var cap: nat

    function Now(): Board
      reads this
    {
      Board(proposals, active, queue, cap)
    }

    constructor (cap: nat)
      ensures Valid(Now()) && Now() == Board(map[], {}, [], cap)
    {
      proposals, active, queue, this.cap := map[], {}, [], cap;
    }

    method SetProposal(p: Proposal)
      modifies this`proposals, this`active
      ensures Now() == Stored(old(Now()), p)
    {
      var newActive, wasActive := IsActive(p.status), p.id in active;
      if !wasActive && newActive {
        active := active + {p.id};
      } else if wasActive && !newActive {
        active := active - {p.id};
      }
      proposals := proposals[p.id := p];
    }

    /** `internal_advance_queue`. */
    method AdvanceQueue(now: nat)
      requires Ready(Now())
      modifies this`proposals, this`active, this`queue
      ensures Now() == Advance(old(Now()), now) && Ready(Now()) && (Valid(old(Now())) ==> Valid(Now()))
    {
      hide WellFormed, Update, Promoted, Commit, Waiting, IsActive, Advance, Consistent, Collected, Stored, StoredAll;
      ghost var before := Now();
      AdvanceIsReady(before, now);
      var updates, promotions := ComputeQueueAdvance(Now(), now);
      WritesAdvance(before, updates, now);
      queue := queue[|promotions|..];
      SetAll(promotions);
      SetAll(updates);
    }

    method SetAll(r: seq<Proposal>)
      modifies this`proposals, this`active
      ensures Now() == StoredAll(old(Now()), r)
    {
      hide Stored;
      for i := 0 to |r|
        invariant Now() == StoredAll(old(Now()), r[..i])
      {
        StoredAllAppend(old(Now()), r[..i], r[i]);
        assert r[..i] + [r[i]] == r[..i + 1];
        SetProposal(r[i]);
      }
      assert r[..|r|] == r;
    }

    /** `approve_proposal`; a panic is `false` and changes nothing. */
    method Approve(id: ProposalId, config: Config, majority: Option<Majority>, now: nat) returns (ok: bool)
      requires Ready(Now())
      modifies this`proposals, this`active, this`queue
      ensures var current := Advance(old(Now()), now);
              && Ready(current) && Ready(Now()) && (Valid(old(Now())) ==> Valid(Now()))
              && var p := Approvable(current, id, config, majority, now);
                 ok == p.Some? && Now() == if ok then Approved(current, p.value, now) else old(Now())
    {
      hide WellFormed, Update, Advance, Consistent, Waiting, Stored, WithTerms, Fresh, Valid;
      ghost var before := Now();
      AdvanceIsReady(before, now);
      var kept, keptActive, keptQueue := proposals, active, queue;
      AdvanceQueue(now);
      ghost var current := Now();
      ConsistentAt(current, id);
      if id !in proposals || Update(proposals[id], now).status != Created {
        proposals, active, queue := kept, keptActive, keptQueue;
        return false;
      }
      var p := WithTerms(Update(proposals[id], now), config, majority);
      if p.None? {
        proposals, active, queue := kept, keptActive, keptQueue;
        return false;
      }
      ApprovableIsFresh(current, id, config, majority, now);
      ApprovedIsReady(current, p.value, now);
      if |active| < cap {
        SetProposal(Activate(p.value, now));
      } else {
        SetProposal(p.value.(status := Queued));
        queue := queue + [id];
      }
      ok := true;
    }

    /** `veto_proposal`: advance, take the slot away, advance again. */
    method Veto(id: ProposalId, now: nat) returns (ok: bool)
      requires Ready(Now())
      modifies this`proposals, this`active, this`queue
      ensures var current := Advance(old(Now()), now);
              && Ready(current) && Ready(Now()) && (Valid(old(Now())) ==> Valid(Now()))
              && ok == Vetoable(current, id, now)
              && (!ok ==> Now() == old(Now()))
              && (ok ==> Ready(AfterVeto(current, id, now)) && Now() == Advance(AfterVeto(current, id, now), now))
    {
      hide WellFormed, Update, Advance, Consistent, Waiting, Stored, Valid;
      ghost var before := Now();
      AdvanceIsReady(before, now);
      var kept, keptActive, keptQueue := proposals, active, queue;
      AdvanceQueue(now);
      ghost var current := Now();
      ConsistentAt(current, id);
      ok := id in proposals && CanVeto(Update(proposals[id], now));
      if !ok {
        proposals, active, queue := kept, keptActive, keptQueue;
        return;
      }
      VetoedCuts(current, id, now);
      CutKeepsReady(current, Update(proposals[id], now).(status := Status.Vetoed), now);
      SetProposal(Update(proposals[id], now).(status := Status.Vetoed));
      AdvanceQueue(now);
    }

    /** `noveto_proposal`: the timelock ends now; only then is the queue advanced. */
    method NoVeto(id: ProposalId, now: nat) returns (ok: bool)
      requires Ready(Now())
      modifies this`proposals, this`active, this`queue
      ensures Ready(Now()) && (Valid(old(Now())) ==> Valid(Now())) && ok == Waivable(old(Now()), id, now)
      ensures !ok ==> Now() == old(Now())
      ensures ok ==> Ready(AfterWaiver(old(Now()), id, now)) && Now() == Advance(AfterWaiver(old(Now()), id, now), now)
    {
      hide WellFormed, Update, Advance, Consistent, Waiting, Stored, Valid;
      ghost var before := Now();
      ConsistentAt(before, id);
      if id !in proposals || Update(proposals[id], now).status != Timelock { return false; }
      var p := Update(proposals[id], now);
      var q := p.(status := if p.hasActions then Executable else Succeeded);
      WaivedCuts(before, id, now);
      CutKeepsReady(before, q, now);
      SetProposal(q);
      AdvanceQueue(now);
      ok := true;
    }

    /** `set_max_active_proposals`: slots opened by a higher cap are filled from the queue at once; a lower cap evicts
        nobody and stops promotion until enough slots are given back. */
    method SetMaxActive(newCap: nat, now: nat) returns (ok: bool)
      requires Ready(Now())
      modifies this
      ensures Ready(Now()) && ok == (newCap > 0)
      ensures !ok ==> Now() == old(Now())
      ensures ok ==> Ready(old(Now()).(cap := newCap)) && Now() == Advance(old(Now()).(cap := newCap), now)
      ensures Valid(old(Now())) && (ok ==> old(cap) <= newCap) ==> Valid(Now())
    {
      hide WellFormed, Advance, Consistent, Waiting, Valid;
      if newCap == 0 { return false; }
      RecappedIsReady(Now(), newCap, now);
      cap := newCap;
      AdvanceQueue(now);
      ok := true;
    }

    /** `get_queue_state` reports the active set and the queue that an advance at `now` would commit. */
    method GetQueueState(now: nat) returns (activeIds: seq<ProposalId>, pending: seq<ProposalId>)
      requires Ready(Now())
      ensures forall id :: id in activeIds <==> id in Advance(Now(), now).active
      ensures pending == Advance(Now(), now).queue
    {
      hide Consistent, Waiting, Advance;
      activeIds, pending := QueueState(Now(), now);
    }

    /** `get_proposal` reports the record as it stands after an advance at `now`. */
    method GetProposal(id: ProposalId, now: nat) returns (p: Option<Proposal>)
      requires Ready(Now())
      ensures p == ProposalView(Advance(Now(), now), id, now)
      ensures p.Some? && (id in active || id in Advance(Now(), now).active) ==>
        p.value == Advance(Now(), now).proposals[id]
    {
      hide Consistent, Waiting, Advance, ProposalView;
      p := ViewProposal(Now(), id, now);
    }
  }
}
