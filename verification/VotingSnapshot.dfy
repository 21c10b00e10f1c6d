/** The veNEAR contract on its Merkle tree: a snapshot taken in any block is one of a sound store, so votes proved
    against it are votes of that store's accounts. */
module VotingSnapshot {
  import opened Options
  import opened VenearBalance
  import opened VenearLedger
  import opened VenearStore
  import opened MerkleNodes
  import MT = MerkleTree
  import VC = VenearContract
  import opened VotingTally

  /** The tree's global state: `total_venear_balance` and its time. */
  datatype Global = Global(total: Balance, stamp: nat)

  type Moment = MT.Moment<Global>

  /** The store after a call, with the block and the time of that call. */
  datatype Past = Past(block: nat, store: Store, clock: nat)

  /** The moment shows the tree of that store. */
  ghost predicate Shows(f: Hashing<Account>, m: Moment, s: Store) {
    m.root == Root(f, s.data) && m.length == |s.data| && m.global == Global(s.total, s.totalStamp)
  }

  /** The last call in a block before `block`. */
  function LastCall(past: seq<Past>, block: nat): Option<Past> {
    if |past| == 0 then None
    else if past[|past| - 1].block < block then Some(past[|past| - 1])
    else LastCall(past[..|past| - 1], block)
  }

  /** At every block the tree's history ends with the store of the last call before it. */
  ghost predicate Aligned(f: Hashing<Account>, history: seq<Moment>, past: seq<Past>) {
    forall b: nat ::
      match MT.LastBefore(history, b)
      case None => LastCall(past, b).None?
      case Some(m) => LastCall(past, b).Some? && Shows(f, m, LastCall(past, b).value.store)
  }

  /** Every past store was sound when it was left. */
  ghost predicate AllSound(past: seq<Past>, clock: nat, k: nat) {
    forall i :: 0 <= i < |past| ==> past[i].clock <= clock && Sound(past[i].store, past[i].clock, k)
  }

  lemma {:induction false} LastCallIsPast(past: seq<Past>, block: nat)
    ensures LastCall(past, block).Some? ==>
      LastCall(past, block).value in past && LastCall(past, block).value.block < block
  {
    if |past| > 0 && past[|past| - 1].block >= block { LastCallIsPast(past[..|past| - 1], block); }
  }

  /** The history before `block` is the same as in `history`. */
  ghost predicate SameBefore(history: seq<Moment>, history': seq<Moment>, block: nat) {
    forall b: nat :: b <= block ==> MT.LastBefore(history', b) == MT.LastBefore(history, b)
  }

  lemma SameBeforeAppend(history: seq<Moment>, history': seq<Moment>, m: Moment, block: nat)
    requires SameBefore(history, history', block) && m.block == block
    ensures SameBefore(history, history' + [m], block)
  {
    hide MT.LastBefore;
    forall b: nat | b <= block ensures MT.LastBefore(history' + [m], b) == MT.LastBefore(history, b) {
      MT.LastBeforeStep(history' + [m], b);
      assert (history' + [m])[..|history'|] == history';
    }
  }

  lemma LastCallAppend(past: seq<Past>, p: Past, b: nat)
    ensures LastCall(past + [p], b) == if p.block < b then Some(p) else LastCall(past, b)
  {
    assert (past + [p])[..|past|] == past;
  }

  /** A call in `block` that ends with the tree of its store keeps history and calls aligned. */
  lemma CallKeepsAligned(f: Hashing<Account>, history: seq<Moment>, history': seq<Moment>, past: seq<Past>, p: Past)
    requires Aligned(f, history, past) && SameBefore(history, history', p.block)
    requires |history'| > 0 && history'[|history'| - 1].block <= p.block && Shows(f, history'[|history'| - 1], p.store)
    ensures Aligned(f, history', past + [p])
  {
    hide MT.LastBefore, LastCall, Shows;
    forall b: nat
      ensures match MT.LastBefore(history', b)
              case None => LastCall(past + [p], b).None?
              case Some(m) => LastCall(past + [p], b).Some? && Shows(f, m, LastCall(past + [p], b).value.store)
    {
      LastCallAppend(past, p, b);
      MT.LastBeforeStep(history', b);
    }
  }

  // ---------------------------------------------------------------------------
  // Writing accounts to the tree
  // ---------------------------------------------------------------------------

  /** The tree's index is that of the first `n` accounts. */
  ghost predicate Agrees(accounts: map<AccountId, nat>, index: map<AccountId, nat>, n: nat) {
    && (forall id :: id in accounts ==> id in index && index[id] == accounts[id] < n)
    && (forall id :: id in index && index[id] < n ==> id in accounts)
  }

  lemma AgreesNext(d: seq<Account>, accounts: map<AccountId, nat>, index: map<AccountId, nat>, n: nat)
    requires Indexed(d, index) && Agrees(accounts, index, n) && n < |d|
    ensures d[n].id !in accounts && Agrees(accounts[d[n].id := n], index, n + 1)
  {
  }

  lemma AgreesAll(d: seq<Account>, accounts: map<AccountId, nat>, index: map<AccountId, nat>)
    requires Indexed(d, index) && Agrees(accounts, index, |d|)
    ensures accounts == index
  {
  }

  /** The accounts below `i` have been written. */
  ghost predicate Written(leaves: seq<Account>, d0: seq<Account>, d: seq<Account>, i: nat) {
    && i <= |d| && |d0| <= |d| && |leaves| == (if i < |d0| then |d0| else i)
    && (forall j :: 0 <= j < i ==> leaves[j] == d[j])
    && (forall j :: i <= j < |d0| ==> leaves[j] == d0[j])
  }

  /** Every account that differs from its leaf is set, and a new one added: the tree then holds the accounts. */
  method WriteThrough(tree: MT.Tree<Account, Global>, d: seq<Account>, ghost index: map<AccountId, nat>, block: nat)
    requires tree.Valid() && tree.lastBlock <= block && Indexed(d, index)
    requires |tree.leaves| <= |d| && Agrees(tree.accounts, index, |tree.leaves|)
    modifies tree
    ensures tree.Valid() && tree.lastBlock <= block && tree.global == old(tree.global)
    ensures tree.leaves == d && tree.accounts == index
    ensures SameBefore(old(tree.history), tree.history, block)
  {
    hide Indexed, Agrees, SameBefore, Written;
    ghost var d0, past := tree.leaves, tree.history;
    StartsWritten(d0, d, past, block);
    for i := 0 to |d|
      invariant tree.Valid() && tree.lastBlock <= block && tree.global == old(tree.global)
      invariant Written(tree.leaves, d0, d, i) && Agrees(tree.accounts, index, |tree.leaves|)
      invariant SameBefore(past, tree.history, block)
    {
      WriteOne(tree, d0, d, i, index, past, block);
    }
    EndsWritten(tree.leaves, d0, d);
    AgreesAll(d, tree.accounts, index);
  }

  lemma StartsWritten(d0: seq<Account>, d: seq<Account>, history: seq<Moment>, block: nat)
    requires |d0| <= |d|
    ensures Written(d0, d0, d, 0) && SameBefore(history, history, block)
  {
  }

  lemma EndsWritten(leaves: seq<Account>, d0: seq<Account>, d: seq<Account>)
    requires Written(leaves, d0, d, |d|)
    ensures leaves == d
  {
  }

  lemma WrittenNext(leaves: seq<Account>, d0: seq<Account>, d: seq<Account>, i: nat)
    requires Written(leaves, d0, d, i) && i < |d|
    ensures i <= |leaves| && Written(MT.WithLeaf(leaves, i, d[i]), d0, d, i + 1)
    ensures i < |leaves| && leaves[i] == d[i] ==> Written(leaves, d0, d, i + 1)
  {
  }

  lemma AgreesAt(d: seq<Account>, accounts: map<AccountId, nat>, index: map<AccountId, nat>, n: nat, i: nat)
    requires Indexed(d, index) && Agrees(accounts, index, n) && i < n <= |d|
    ensures d[i].id in accounts && accounts[d[i].id] == i
  {
  }

  /** One turn: account `i` is brought into the tree if its leaf differs. */
  method WriteOne(tree: MT.Tree<Account, Global>, ghost d0: seq<Account>, d: seq<Account>, i: nat,
                  ghost index: map<AccountId, nat>, ghost past: seq<Moment>, block: nat)
    requires tree.Valid() && tree.lastBlock <= block && Indexed(d, index) && i < |d|
    requires Written(tree.leaves, d0, d, i) && Agrees(tree.accounts, index, |tree.leaves|)
    requires SameBefore(past, tree.history, block)
    modifies tree
    ensures tree.Valid() && tree.lastBlock <= block && tree.global == old(tree.global)
    ensures Written(tree.leaves, d0, d, i + 1) && Agrees(tree.accounts, index, |tree.leaves|)
    ensures SameBefore(past, tree.history, block)
  {
    hide Indexed, Agrees, SameBefore, MT.Refines, MT.LastBefore, MT.Chronological, Root;
    WrittenNext(tree.leaves, d0, d, i);
    if i < |tree.leaves| {
      AgreesAt(d, tree.accounts, index, |tree.leaves|, i);
    } else {
      AgreesNext(d, tree.accounts, index, i);
    }
    if i == tree.length || tree.data[i] != d[i] {
      ghost var before := tree.history;
      var _ := tree.Set(d[i].id, d[i], block);
      SameBeforeAppend(past, before, tree.history[|before|], block);
    }
  }

  // ---------------------------------------------------------------------------
  // The contract
  // ---------------------------------------------------------------------------

  lemma AgreesSame(d: seq<Account>, index: map<AccountId, nat>)
    requires Indexed(d, index)
    ensures Agrees(index, index, |d|)
  {
  }

  lemma AgreesRegistered(d: seq<Account>, index: map<AccountId, nat>, id: AccountId)
    requires Indexed(d, index) && id !in index
    ensures Agrees(index, index[id := |d|], |d|)
  {
  }

  lemma SoundParts(s: Store, t: nat, k: nat)
    requires Sound(s, t, k)
    ensures Indexed(s.data, s.index)
  {
  }

  lemma AllSoundLater(past: seq<Past>, p: Past, clock: nat, k: nat)
    requires AllSound(past, clock, k) && clock <= p.clock && Sound(p.store, p.clock, k)
    ensures AllSound(past + [p], p.clock, k)
  {
    hide Sound;
  }

  /** What is needed to turn a past store into a voting snapshot. */
  lemma PastIsSnapshot(f: Hashing<Account>, m: Moment, p: Past, rate: Rate, nowNs: nat)
    requires Exact(rate) && Sound(p.store, p.clock, PerUnit(rate)) && p.clock <= ToSeconds(nowNs)
         && Shows(f, m, p.store)
    ensures var n := TakeSnapshot(m.root, m.length, m.global.total, m.global.stamp, rate, nowNs);
            n.Some? && SnapshotOf(n.value, p.store, f)
  {
    hide Grow, Ledger, Exact, PerUnit, ToSeconds, Root, Shape, UpdateTotal;
    SoundLater(p.store, p.clock, ToSeconds(nowNs), PerUnit(rate));
    UpdateTotalIs(p.store.total, p.store.totalStamp, ToSeconds(nowNs), rate);
  }

  class Contract {
    const tree: MT.Tree<Account, Global>
    const ledger: VC.Contract
    ghost var past: seq<Past>            // the creation and every call since

    /** The tree holds the store, and its history the stores of all calls. */
    ghost predicate Valid()
      reads this, tree, ledger
    {
      && tree.Valid() && ledger.Valid()
      && tree.leaves == ledger.data && tree.accounts == ledger.index
      && tree.global == Global(ledger.total, ledger.totalStamp)
      && Aligned(tree.f, tree.history, past) && AllSound(past, ledger.clock, PerUnit(ledger.rate))
    }

    /** The calls before this one, while the ledger has changed and the tree has not. */
    ghost predicate Pending(clock: nat)
      reads this, tree, ledger
    {
      && tree.Valid() && ledger.Valid() && clock <= ledger.clock
      && |tree.leaves| <= |ledger.data| && Agrees(tree.accounts, ledger.index, |tree.leaves|)
      && Aligned(tree.f, tree.history, past) && AllSound(past, clock, PerUnit(ledger.rate))
    }

    constructor (f: Hashing<Account>, rate: Rate, maxDelegations: nat, nowNs: nat, block: nat)
      requires Exact(rate)
      ensures Valid() && fresh(tree) && fresh(ledger) && tree.f == f && ledger.rate == rate
      ensures past == [Past(block, ledger.Stored(), ToSeconds(nowNs))] && tree.lastBlock == block
    {
      hide Exact, PerUnit, ToSeconds, Sound;
      var t := new MT.Tree<Account, Global>(f, Global(Zero(), ToSeconds(nowNs)), block);
      var l := new VC.Contract(rate, maxDelegations, nowNs);
      tree, ledger := t, l;
      past := [Past(block, l.Stored(), ToSeconds(nowNs))];
      assert [] + [Past(block, l.Stored(), ToSeconds(nowNs))] == [Past(block, l.Stored(), ToSeconds(nowNs))];
      CallKeepsAligned(f, [], t.history, [], Past(block, l.Stored(), ToSeconds(nowNs)));
      AllSoundLater([], Past(block, l.Stored(), ToSeconds(nowNs)), 0, PerUnit(rate));
    }

    /** The changed accounts and the global state go to the tree. */
    method Commit(block: nat, ghost clock: nat)
      requires Pending(clock) && tree.lastBlock <= block
      modifies this`past, tree
      ensures Valid() && tree.lastBlock <= block
      ensures past == old(past) + [Past(block, ledger.Stored(), ledger.clock)]
    {
      hide Exact, PerUnit, Sound, Indexed, Agrees, Aligned, AllSound, SameBefore, MT.Refines, MT.LastBefore,
           MT.Chronological, MT.Holds, MT.Numbered, Root;
      ghost var before := tree.history;
      SoundParts(ledger.Stored(), ledger.clock, PerUnit(ledger.rate));
      WriteThrough(tree, ledger.data, ledger.index, block);
      var g := Global(ledger.total, ledger.totalStamp);
      if tree.global != g {
        ghost var written := tree.history;
        tree.SetGlobalState(g, block);
        SameBeforeAppend(before, written, tree.history[|written|], block);
      }
      ghost var p := Past(block, ledger.Stored(), ledger.clock);
      CallKeepsAligned(tree.f, before, tree.history, past, p);
      AllSoundLater(past, p, clock, PerUnit(ledger.rate));
      past := past + [p];
    }

    method Register(id: AccountId, deposit: nat, nowNs: nat, block: nat) returns (ok: bool)
      requires Valid() && ledger.clock <= ToSeconds(nowNs) && tree.lastBlock <= block
      modifies this`past, tree, ledger
      ensures Valid() && tree.lastBlock <= block && ok == (id !in old(ledger.index))
      ensures ok ==> past == old(past) + [Past(block, ledger.Stored(), ToSeconds(nowNs))]
    {
      hide Exact, PerUnit, ToSeconds, Sound, Indexed, Agrees, Aligned, AllSound, MT.Refines, Root;
      ghost var clock := ledger.clock;
      SoundParts(ledger.Stored(), clock, PerUnit(ledger.rate));
      if id !in ledger.index { AgreesRegistered(ledger.data, ledger.index, id); }
      ok := ledger.Register(id, deposit, nowNs);
      if ok { Commit(block, clock); }
    }

    method SetDelegations(caller: AccountId, entries: seq<Entry>, nowNs: nat, block: nat) returns (ok: bool)
      requires Valid() && ledger.clock <= ToSeconds(nowNs) && tree.lastBlock <= block
      modifies this`past, tree, ledger
      ensures Valid() && tree.lastBlock <= block
      ensures ok == Delegable(old(ledger.Stored()), caller, entries, ledger.maxDelegations)
      ensures ok ==> past == old(past) + [Past(block, ledger.Stored(), ToSeconds(nowNs))]
    {
      hide Exact, PerUnit, ToSeconds, Sound, Indexed, Agrees, Aligned, AllSound, MT.Refines, Root, Delegable;
      ghost var clock := ledger.clock;
      SoundParts(ledger.Stored(), clock, PerUnit(ledger.rate));
      AgreesSame(ledger.data, ledger.index);
      ok := ledger.SetDelegations(caller, entries, nowNs);
      if ok { Commit(block, clock); }
    }

    method LockupUpdate(id: AccountId, locked: nat, nonce: nat, nowNs: nat, block: nat) returns (ok: bool)
      requires Valid() && ledger.clock <= ToSeconds(nowNs) && tree.lastBlock <= block
      modifies this`past, tree, ledger
      ensures Valid() && tree.lastBlock <= block && ok == Lockable(old(ledger.Stored()), id, nonce)
      ensures ok ==> past == old(past) + [Past(block, ledger.Stored(), ToSeconds(nowNs))]
    {
      hide Exact, PerUnit, ToSeconds, Sound, Indexed, Agrees, Aligned, AllSound, MT.Refines, Root, Lockable;
      ghost var clock := ledger.clock;
      SoundParts(ledger.Stored(), clock, PerUnit(ledger.rate));
      AgreesSame(ledger.data, ledger.index);
      ok := ledger.LockupUpdate(id, locked, nonce, nowNs);
      if ok { Commit(block, clock); }
    }

    /** `get_snapshot` in block `block`, brought up to the time of the voting contract's callback: a snapshot of the
        sound store that the calls in earlier blocks left, and none only in the block of the creation. */
    method TakeVotingSnapshot(block: nat, nowNs: nat) returns (n: Option<Snapshot>, ghost s: Store)
      requires Valid() && tree.lastBlock <= block && ledger.clock <= ToSeconds(nowNs)
      ensures n.None? <==> LastCall(past, block).None?
      ensures n.Some? ==> s == LastCall(past, block).value.store && SnapshotOf(n.value, s, tree.f)
    {
      hide Exact, PerUnit, ToSeconds, Sound, MT.Refines, MT.LastBefore, MT.Chronological, Root, LastCall, SnapshotOf,
           TakeSnapshot, Shows;
      s := ledger.Stored();
      var m := tree.GetSnapshot(block);
      if m.None? { return None, s; }
      LastCallIsPast(past, block);
      ghost var p := LastCall(past, block).value;
      s := p.store;
      PastIsSnapshot(tree.f, m.value, p, ledger.rate, nowNs);
      n := TakeSnapshot(m.value.root, m.value.length, m.value.global.total, m.value.global.stamp, ledger.rate, nowNs);
    }
  }
}
