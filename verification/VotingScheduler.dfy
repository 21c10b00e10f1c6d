/** The scheduler as the contract runs it: loops over the active set and the queue, then the writes. */
module VotingScheduler {
  import opened VotingProposal
  import opened VotingQueue
  import opened VotingAdvance
  import opened VotingConfluence
  import opened VotingActions

  predicate Sorted(times: seq<nat>) {
    forall i, j :: 0 <= i < j < |times| ==> times[i] <= times[j]
  }

  /** The freed time is put before the first one that is not earlier. */
  function Inserted(times: seq<nat>, t: nat): (r: seq<nat>)
    requires Sorted(times)
    ensures Sorted(r) && multiset(r) == multiset(times) + multiset{t}
    ensures |r| > 0 && (r[0] == t || (times != [] && r[0] == times[0]))
  {
    if times == [] || times[0] >= t then
      SortedCons(t, times);
      [t] + times
    else
      assert times == [times[0]] + times[1..];
      SortedTail(times);
      SortedCons(times[0], Inserted(times[1..], t));
      [times[0]] + Inserted(times[1..], t)
  }

  lemma SortedCons(t: nat, times: seq<nat>)
    requires Sorted(times) && (times != [] ==> t <= times[0])
    ensures Sorted([t] + times)
  {
  }

  lemma SortedTail(times: seq<nat>)
    requires Sorted(times) && times != []
    ensures Sorted(times[1..]) && (|times| > 1 ==> times[0] <= times[1..][0])
  {
  }

  lemma FirstIsLeast(times: seq<nat>)
    requires Sorted(times) && times != []
    ensures Least(multiset(times)) == times[0]
    ensures Popped(multiset(times)) == multiset(times[1..]) && Sorted(times[1..])
  {
    assert times == [times[0]] + times[1..];
    var x := Least(multiset(times));
    assert times[0] in multiset(times);
    assert x in times;
  }

  /** `updates` holds, brought up to `now`, the visited active proposals whose status has changed. */
  ghost predicate Collected(b: Board, visited: set<ProposalId>, updates: seq<Proposal>, now: nat)
    requires Consistent(b) && visited <= b.active
  {
    && DistinctIds(updates)
    && (forall i :: 0 <= i < |updates| ==>
      updates[i].id in visited && updates[i] == Update(b.proposals[updates[i].id], now))
    && (forall id :: id in visited && Update(b.proposals[id], now) != b.proposals[id] ==>
          exists i :: 0 <= i < |updates| && updates[i].id == id)
  }

  lemma CollectStep(b: Board, visited: set<ProposalId>, updates: seq<Proposal>, now: nat, id: ProposalId)
    requires Consistent(b) && visited <= b.active && id in b.active - visited && Collected(b, visited, updates, now)
    ensures var p := Update(b.proposals[id], now);
            Collected(b, visited + {id}, if p.status != b.proposals[id].status then updates + [p] else updates, now)
  {
    hide WellFormed, Update;
    var p := Update(b.proposals[id], now);
    UpdateChangesStatusOnly(b.proposals[id], now);
    var updates' := if p.status != b.proposals[id].status then updates + [p] else updates;
    forall x | x in visited + {id} && Update(b.proposals[x], now) != b.proposals[x]
      ensures exists i :: 0 <= i < |updates'| && updates'[i].id == x
    {
      if x == id {
        assert updates'[|updates|].id == x;
      } else {
        var i :| 0 <= i < |updates| && updates[i].id == x;
        assert updates'[i].id == x;
      }
    }
  }

  /** The freed slots and the count of held ones, after visiting some of the active proposals. */
  ghost predicate Scanned(b: Board, visited: set<ProposalId>, count: nat, freed: multiset<nat>, now: nat)
    requires Consistent(b) && visited <= b.active
  {
    && Running(b.proposals, visited * Exits(b, now))
    && count == |visited - Exits(b, now)|
    && freed == Ends(b.proposals, visited * Exits(b, now))
  }

  lemma ScanStep(b: Board, visited: set<ProposalId>, count: nat, freed: multiset<nat>, now: nat, id: ProposalId)
    requires Consistent(b) && visited <= b.active && id in b.active - visited && Scanned(b, visited, count, freed, now)
    ensures HasRun(b.proposals[id])
    ensures if id in Exits(b, now)
            then Scanned(b, visited + {id}, count, freed + multiset{SlotEnd(b.proposals[id])}, now)
            else Scanned(b, visited + {id}, count + 1, freed, now)
  {
    hide WellFormed, SlotEnd, HasRun, Update, Ends, Scanned;
    ExitsRun(b, now);
    ActiveIsRunning(b);
    if id in Exits(b, now) {
      ScanExit(b, visited, count, freed, now, id);
    } else {
      ScanStay(b, visited, count, freed, now, id);
    }
  }

  lemma ScanExit(b: Board, visited: set<ProposalId>, count: nat, freed: multiset<nat>, now: nat, id: ProposalId)
    requires Consistent(b) && visited <= b.active && id in b.active - visited && Scanned(b, visited, count, freed, now)
    requires id in Exits(b, now) && Running(b.proposals, b.active)
    ensures Scanned(b, visited + {id}, count, freed + multiset{SlotEnd(b.proposals[id])}, now)
  {
    hide WellFormed, SlotEnd, HasRun, Update, Ends, Exits, Consistent, IsActive;
    var exits, v := Exits(b, now), visited + {id};
    assert v - exits == visited - exits;
    assert v * exits - {id} == visited * exits;
    EndsSplit(b.proposals, v * exits, id);
  }

  lemma ScanStay(b: Board, visited: set<ProposalId>, count: nat, freed: multiset<nat>, now: nat, id: ProposalId)
    requires Consistent(b) && visited <= b.active && id in b.active - visited && Scanned(b, visited, count, freed, now)
    requires id !in Exits(b, now)
    ensures Scanned(b, visited + {id}, count + 1, freed, now)
  {
    hide WellFormed, SlotEnd, HasRun, Update, Ends, Exits, Consistent, IsActive;
    var exits, v := Exits(b, now), visited + {id};
    assert v - exits == visited - exits + {id};
    assert v * exits == visited * exits;
  }

  lemma ScanDone(b: Board, count: nat, freed: multiset<nat>, now: nat)
    requires Consistent(b) && Scanned(b, b.active, count, freed, now)
    ensures freed == Freed(b, now) && count == |b.active - Exits(b, now)|
  {
    assert b.active * Exits(b, now) == Exits(b, now);
  }

  lemma ScanBegins(b: Board, now: nat)
    requires Consistent(b)
    ensures Scanned(b, {}, 0, multiset{}, now) && Collected(b, {}, [], now)
  {
    var none: set<ProposalId> := {};
    assert none - Exits(b, now) == {} && none * Exits(b, now) == {};
  }

  /** First loop of `compute_queue_advance`, over the active set in any order. */
  method ScanActive(b: Board, now: nat) returns (updates: seq<Proposal>, count: nat, freed: seq<nat>)
    requires Consistent(b)
    ensures Collected(b, b.active, updates, now)
    ensures count == |b.active - Exits(b, now)| && Sorted(freed) && multiset(freed) == Freed(b, now)
  {
    hide WellFormed, SlotEnd, HasRun, SlotStart, Update, Collected, Scanned, Sorted;
    updates, count, freed := [], 0, [];
    NoTimesSorted();
    var left := b.active;
    ghost var visited: set<ProposalId> := {};
    ScanBegins(b, now);
    while left != {}
      invariant left <= b.active && visited == b.active - left
      invariant Collected(b, visited, updates, now) && Scanned(b, visited, count, multiset(freed), now) && Sorted(freed)
    {
      var id :| id in left;
      CollectStep(b, visited, updates, now, id);
      ScanStep(b, visited, count, multiset(freed), now, id);
      UpdateChangesStatusOnly(b.proposals[id], now);
      var p := Update(b.proposals[id], now);
      if IsActive(p.status) { count := count + 1; }
      if p.status != b.proposals[id].status {
        if !IsActive(p.status) { freed := Inserted(freed, SlotEnd(p)); }
        updates := updates + [p];
      }
      left, visited := left - {id}, visited + {id};
    }
    assert visited == b.active;
    ScanDone(b, count, multiset(freed), now);
  }

  lemma NoTimesSorted()
    ensures Sorted([])
  {
  }

  function Left(cap: nat, count: nat): nat { if count < cap then cap - count else 0 }

  /** What has been promoted so far, followed by what is still to be promoted, is what an advance promotes. */
  ghost predicate Filling(b: Board, i: nat, done: seq<Proposal>, whole: seq<Proposal>, freed: multiset<nat>,
                          count: nat, now: nat) {
    && i <= |b.queue| && Waiting(b.proposals, b.queue[i..])
    && whole == done + Promotions(b.proposals, b.queue[i..], freed, Left(b.cap, count), now)
  }

  lemma FillBegins(b: Board, freed: multiset<nat>, count: nat, now: nat)
    requires Waiting(b.proposals, b.queue)
    ensures Filling(b, 0, [], Promotions(b.proposals, b.queue, freed, Left(b.cap, count), now), freed, count, now)
  {
    assert b.queue[0..] == b.queue;
  }

  lemma FillStep(b: Board, i: nat, done: seq<Proposal>, whole: seq<Proposal>, freed: multiset<nat>, count: nat,
                 now: nat)
    requires i < |b.queue| && count < b.cap && Filling(b, i, done, whole, freed, count, now)
    ensures b.queue[i] in b.proposals && IsWaiting(b.proposals[b.queue[i]], b.queue[i])
    ensures var p := Begun(b.proposals[b.queue[i]], NextStart(freed, now), now);
            Filling(b, i + 1, done + [p], whole, Handed(freed, p), if IsActive(p.status) then count + 1 else count, now)
  {
    hide WellFormed, SlotEnd, HasRun, SlotStart, Update, Promotions, Begun, Least, Waiting, NextStart, Handed;
    PromotionsNext(b.proposals, b.queue[i..], freed, b.cap - count, now);
    assert b.queue[i..][1..] == b.queue[i + 1..];
    assert b.queue[i..][0] == b.queue[i];
  }

  lemma FillEnds(b: Board, i: nat, done: seq<Proposal>, whole: seq<Proposal>, freed: multiset<nat>, count: nat,
                 now: nat)
    requires Filling(b, i, done, whole, freed, count, now) && (i == |b.queue| || count >= b.cap)
    ensures done == whole
  {
    PromotionsDone(b.proposals, b.queue[i..], freed, Left(b.cap, count), now);
  }

  /** The earliest freed time is taken off the front; with none left the start is `now`. */
  method TakeSlot(freed: seq<nat>, now: nat) returns (start: nat, rest: seq<nat>)
    requires Sorted(freed)
    ensures Sorted(rest) && start == NextStart(multiset(freed), now) && multiset(rest) == Popped(multiset(freed))
  {
    if freed == [] { return now, freed; }
    FirstIsLeast(freed);
    start, rest := freed[0], freed[1..];
  }

  /** Second loop of `compute_queue_advance`, down the queue while there is room. */
  method FillFromQueue(b: Board, held: nat, times: seq<nat>, now: nat) returns (promotions: seq<Proposal>)
    requires Waiting(b.proposals, b.queue) && Sorted(times)
    ensures promotions == Promotions(b.proposals, b.queue, multiset(times), Left(b.cap, held), now)
  {
    hide WellFormed, SlotEnd, HasRun, SlotStart, Update, Sorted, Promotions, Begun, NextStart, Popped, Waiting,
         Activate, Left;
    ghost var whole := Promotions(b.proposals, b.queue, multiset(times), Left(b.cap, held), now);
    var count: nat, freed: seq<nat>, i: nat := held, times, 0;
    promotions := [];
    FillBegins(b, multiset(freed), count, now);
    hide Filling;
    while i < |b.queue| && count < b.cap
      invariant i <= |b.queue| && Sorted(freed) && Filling(b, i, promotions, whole, multiset(freed), count, now)
    {
      FillStep(b, i, promotions, whole, multiset(freed), count, now);
      var start;
      start, freed := TakeSlot(freed, now);
      var p := Begun(b.proposals[b.queue[i]], start, now);
      if IsActive(p.status) { count := count + 1; } else { freed := Inserted(freed, SlotEnd(p)); }
      promotions, i := promotions + [p], i + 1;
    }
    FillEnds(b, i, promotions, whole, multiset(freed), count, now);
  }

  /** `compute_queue_advance`. */
  method ComputeQueueAdvance(b: Board, now: nat) returns (updates: seq<Proposal>, promotions: seq<Proposal>)
    requires Consistent(b) && Waiting(b.proposals, b.queue)
    ensures Collected(b, b.active, updates, now)
    ensures promotions == Promoted(b, now)
  {
    hide WellFormed, Update, Promotions, Collected, Exits, Consistent, Waiting, Sorted, Freed;
    var count, freed;
    updates, count, freed := ScanActive(b, now);
    promotions := FillFromQueue(b, count, freed, now);
  }

  // ---------------------------------------------------------------------------
  // Committing
  // ---------------------------------------------------------------------------

  function StoredAll(b: Board, r: seq<Proposal>): Board
    decreases |r|
  {
    if r == [] then b else StoredAll(Stored(b, r[0]), r[1..])
  }

  lemma {:induction false} StoredAllCommits(b: Board, r: seq<Proposal>)
    requires Consistent(b) && forall i :: 0 <= i < |r| ==> WellFormed(r[i])
    ensures Consistent(StoredAll(b, r)) && StoredAll(b, r).proposals == Commit(b.proposals, r)
    ensures StoredAll(b, r).queue == b.queue && StoredAll(b, r).cap == b.cap
    decreases |r|
  {
    hide WellFormed, IsActive, Consistent;
    if r != [] {
      StoredIsConsistent(b, r[0]);
      StoredAllCommits(Stored(b, r[0]), r[1..]);
    }
  }

  lemma {:induction false} StoredAllAppend(b: Board, r: seq<Proposal>, p: Proposal)
    ensures StoredAll(b, r + [p]) == Stored(StoredAll(b, r), p)
    decreases |r|
  {
    if r == [] {
      assert (r + [p])[1..] == [];
    } else {
      assert (r + [p])[1..] == r[1..] + [p];
      StoredAllAppend(Stored(b, r[0]), r[1..], p);
    }
  }

  /** The proposals that two rounds of writes leave, id by id. */
  lemma WritesAgree(b: Board, c: Board, updates: seq<Proposal>, now: nat, id: ProposalId)
    requires Consistent(b) && Waiting(b.proposals, b.queue) && Collected(b, b.active, updates, now)
    requires c.proposals == Commit(Commit(b.proposals, Promoted(b, now)), updates)
    ensures Agree(c, Advance(b, now), id)
  {
    hide WellFormed, Update, Promoted, Commit, Waiting, HasBegun, IsActive, Advance;
    var r := Promoted(b, now);
    PromotedFromQueue(b, now);
    AdvancedAt(b, now, id);
    if i :| 0 <= i < |updates| && updates[i].id == id {
      CommitWrites(Commit(b.proposals, r), updates, i);
    } else {
      CommitKeeps(Commit(b.proposals, r), updates, id);
      if i :| 0 <= i < |r| && r[i].id == id {
        CommitWrites(b.proposals, r, i);
      } else {
        CommitKeeps(b.proposals, r, id);
      }
    }
  }

  /** Draining the queue and writing promotions and updates back gives the advanced board. */
  lemma WritesAdvance(b: Board, updates: seq<Proposal>, now: nat)
    requires Consistent(b) && Waiting(b.proposals, b.queue) && Collected(b, b.active, updates, now)
    ensures |Promoted(b, now)| <= |b.queue|
    ensures StoredAll(StoredAll(b.(queue := b.queue[|Promoted(b, now)|..]), Promoted(b, now)), updates)
         == Advance(b, now)
  {
    hide WellFormed, Update, Promoted, Commit, Waiting, IsActive, Advance, Exits, ActiveIds;
    var r := Promoted(b, now);
    PromotedFromQueue(b, now);
    var drained := b.(queue := b.queue[|r|..]);
    StoredAllCommits(drained, r);
    forall i | 0 <= i < |updates| ensures WellFormed(updates[i]) {
      UpdateChangesStatusOnly(b.proposals[updates[i].id], now);
    }
    StoredAllCommits(StoredAll(drained, r), updates);
    var c := StoredAll(StoredAll(drained, r), updates);
    AdvanceIsConsistent(b, now);
    forall id ensures Agree(c, Advance(b, now), id) { WritesAgree(b, c, updates, now, id); }
    AgreeEverywhere(c, Advance(b, now));
    AdvancedQueue(b, now);
  }
}
