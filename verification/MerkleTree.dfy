/** The persistent Merkle tree, updated one path at a time, and the proofs read from it. */
module MerkleTree {
  import opened Options
  import opened MerkleNodes

  datatype Place = Place(height: nat, index: nat)

  type Hashes = map<Place, Hash>

  function GetHash(hashes: Hashes, h: nat, i: nat): Hash {
    if Place(h, i) in hashes then hashes[Place(h, i)] else ZERO
  }

  /** Every stored node is that of the tree from scratch, and nothing is stored above the root. */
  ghost predicate Refines<V>(f: Hashing<V>, hashes: Hashes, leaves: seq<V>) {
    && (forall h: nat, i: nat :: h < TreeHeight(|leaves|) ==> GetHash(hashes, h, i) == Node(f, leaves, h, i))
    && (forall h: nat, i: nat :: h >= TreeHeight(|leaves|) ==> Place(h, i) !in hashes)
  }

  /** During an update: path nodes below height `done` are new, nodes off the path need no change. */
  ghost predicate Climbing<V>(f: Hashing<V>, hashes: Hashes, leaves: seq<V>, index: nat, done: nat) {
    && (forall h: nat, i: nat :: h < TreeHeight(|leaves|) && (h < done || i != Ancestor(index, h)) ==>
          GetHash(hashes, h, i) == Node(f, leaves, h, i))
    && (forall h: nat, i: nat :: h >= TreeHeight(|leaves|) ==> Place(h, i) !in hashes)
  }

  lemma Heights(n: nat, n': nat)
    requires n <= n' <= n + 1 && n' > 0
    ensures TreeHeight(n) <= TreeHeight(n') <= TreeHeight(n) + 1
  {
    if n > 0 { HeightGrows(n); }
  }

  /** The stored hashes of the old leaves are right for the new ones, off the changed path. */
  lemma ClimbStarts<V>(f: Hashing<V>, hashes: Hashes, before: seq<V>, after: seq<V>, index: nat)
    requires Refines(f, hashes, before) && Changed(before, after, index)
    ensures Climbing(f, hashes, after, index, 0)
  {
    Heights(|before|, |after|);
    forall h: nat, i: nat | h < TreeHeight(|after|) && i != Ancestor(index, h)
      ensures GetHash(hashes, h, i) == Node(f, after, h, i)
    {
      OffPathUnchanged(f, before, after, index, h, i);
      if h >= TreeHeight(|before|) {
        TopIsSingle(|after|, h, i);
        TopIsSingle(|after|, h, index);
      }
    }
  }

  /** One step up the path: the hash of the node over two children that are right is right. */
  lemma ClimbStep<V>(f: Hashing<V>, hashes: Hashes, leaves: seq<V>, index: nat, h: nat)
    requires index < |leaves| && h < TreeHeight(|leaves|) && Climbing(f, hashes, leaves, index, h)
    ensures !Empty(|leaves|, h, Ancestor(index, h))
    ensures Climbing(f, hashes[Place(h, Ancestor(index, h)) := f.digest(NodeInput(f, leaves, h, Ancestor(index, h)))],
                     leaves, index, h + 1)
  {
    hide Ancestor, TreeHeight, NodeInput, Empty;
    AncestorIsNotEmpty(|leaves|, index, h);
  }

  lemma ChildrenStored<V>(f: Hashing<V>, hashes: Hashes, leaves: seq<V>, index: nat, h: nat)
    requires index < |leaves| && 0 < h < TreeHeight(|leaves|) && Climbing(f, hashes, leaves, index, h)
    ensures !Empty(|leaves|, h, Ancestor(index, h))
    ensures var i := Ancestor(index, h);
            NodeInput(f, leaves, h, i) == GetHash(hashes, h - 1, 2 * i) + GetHash(hashes, h - 1, 2 * i + 1)
  {
    hide Ancestor, TreeHeight, Empty;
    AncestorIsNotEmpty(|leaves|, index, h);
  }

  lemma StoredIsNode<V>(f: Hashing<V>, hashes: Hashes, leaves: seq<V>, h: nat, i: nat)
    requires Refines(f, hashes, leaves) && h < TreeHeight(|leaves|)
    ensures GetHash(hashes, h, i) == Node(f, leaves, h, i)
  {
  }

  lemma ClimbEnds<V>(f: Hashing<V>, hashes: Hashes, leaves: seq<V>, index: nat)
    requires Climbing(f, hashes, leaves, index, TreeHeight(|leaves|))
    ensures Refines(f, hashes, leaves)
    ensures index < |leaves| ==> GetHash(hashes, TreeHeight(|leaves|) - 1, 0) == Root(f, leaves)
  {
  }

  // ---------------------------------------------------------------------------
  // Proofs
  // ---------------------------------------------------------------------------

  datatype Proof = Proof(index: nat, path: seq<Hash>)

  /** The path holds the siblings that the tree from scratch has on the way from the leaf to the root. */
  predicate Genuine<V>(f: Hashing<V>, leaves: seq<V>, p: Proof) {
    && |p.path| + 1 == TreeHeight(|leaves|)
    && forall h :: 0 <= h < |p.path| ==> p.path[h] == Node(f, leaves, h, Sibling(Ancestor(p.index, h)))
  }

  lemma AncestorStep(index: nat, h: nat)
    ensures Ancestor(index, 0) == index && Ancestor(index, h + 1) == Ancestor(index, h) / 2
  {
  }

  /** The first `h` siblings on the way up from leaf `index`. */
  function PathUpTo<V>(f: Hashing<V>, leaves: seq<V>, index: nat, h: nat): (path: seq<Hash>)
    ensures |path| == h
    ensures forall g :: 0 <= g < h ==> path[g] == Node(f, leaves, g, Sibling(Ancestor(index, g)))
  {
    if h == 0 then []
    else PathUpTo(f, leaves, index, h - 1) + [Node(f, leaves, h - 1, Sibling(Ancestor(index, h - 1)))]
  }

  /** The loop of `get_proof` over the stored hashes. */
  method Siblings<V>(f: Hashing<V>, hashes: Hashes, ghost leaves: seq<V>, length: nat, index: nat)
    returns (path: seq<Hash>)
    requires Refines(f, hashes, leaves) && index < length == |leaves|
    ensures TreeHeight(length) > 0 && path == PathUpTo(f, leaves, index, TreeHeight(length) - 1)
  {
    RootIsTopAncestor(f, leaves, index);
    hide TreeHeight, Refines, Node, Sibling, Ancestor;
    AncestorStep(index, 0);
    var node := index;
    path := [];
    for h := 0 to TreeHeight(length) - 1
      invariant node == Ancestor(index, h) && path == PathUpTo(f, leaves, index, h)
    {
      StoredIsNode(f, hashes, leaves, h, Sibling(node));
      AncestorStep(index, h);
      path := path + [GetHash(hashes, h, Sibling(node))];
      node := node / 2;
    }
  }

  /** The bytes the check hashes at height `h`. */
  function PathInput<V>(f: Hashing<V>, value: V, p: Proof, h: nat): Bytes
    requires h <= |p.path|
    decreases h, 0
  {
    if h == 0 then f.encode(value)
    else if Ancestor(p.index, h - 1) % 2 == 0 then PathHash(f, value, p, h - 1) + p.path[h - 1]
    else p.path[h - 1] + PathHash(f, value, p, h - 1)
  }

  function PathHash<V>(f: Hashing<V>, value: V, p: Proof, h: nat): Hash
    requires h <= |p.path|
    decreases h, 1
  {
    f.digest(PathInput(f, value, p, h))
  }

  predicate Accepts<V>(f: Hashing<V>, root: Hash, length: nat, value: V, p: Proof) {
    && p.index < length
    && |p.path| + 1 == TreeHeight(length)
    && PathHash(f, value, p, |p.path|) == root
  }

  /** `MerkleProof::is_valid`. */
  method IsValid<V>(f: Hashing<V>, root: Hash, length: nat, value: V, p: Proof) returns (valid: bool)
    ensures valid <==> Accepts(f, root, length, value, p)
  {
    if p.index >= length || |p.path| + 1 != TreeHeight(length) { return false; }
    var hash, node := f.digest(f.encode(value)), p.index;
    hide TreeHeight;
    for h := 0 to |p.path|
      invariant hash == PathHash(f, value, p, h) && node == Ancestor(p.index, h)
    {
      var left: Bytes, right: Bytes := hash, p.path[h];
      if node % 2 == 1 { left, right := right, left; }
      hash, node := f.digest(left + right), node / 2;
    }
    valid := hash == root;
  }

  /** Following genuine siblings from a leaf of the tree recomputes the tree's own nodes. */
  lemma {:induction false} GenuinePathClimbs<V>(f: Hashing<V>, leaves: seq<V>, p: Proof, h: nat)
    requires p.index < |leaves| && Genuine(f, leaves, p) && h <= |p.path|
    ensures PathHash(f, leaves[p.index], p, h) == Node(f, leaves, h, Ancestor(p.index, h))
  {
    AncestorIsNotEmpty(|leaves|, p.index, h);
    if h > 0 { GenuinePathClimbs(f, leaves, p, h - 1); }
  }

  lemma RootIsTopAncestor<V>(f: Hashing<V>, leaves: seq<V>, index: nat)
    requires index < |leaves|
    ensures TreeHeight(|leaves|) > 0
    ensures Root(f, leaves) == Node(f, leaves, TreeHeight(|leaves|) - 1, Ancestor(index, TreeHeight(|leaves|) - 1))
  {
    TopIsSingle(|leaves|, TreeHeight(|leaves|) - 1, index);
  }

  /** Completeness: a genuine path is accepted for the leaf it belongs to. */
  lemma GenuineIsAccepted<V>(f: Hashing<V>, leaves: seq<V>, p: Proof)
    requires p.index < |leaves| && Genuine(f, leaves, p)
    ensures Accepts(f, Root(f, leaves), |leaves|, leaves[p.index], p)
  {
    RootIsTopAncestor(f, leaves, p.index);
    GenuinePathClimbs(f, leaves, p, |p.path|);
  }

  /** The highest level, from `h` down, at which the proof and the tree hash different bytes. */
  function Clash<V>(f: Hashing<V>, leaves: seq<V>, value: V, p: Proof, h: nat): Option<(Bytes, Bytes)>
    requires p.index < |leaves| && h <= |p.path|
  {
    AncestorIsNotEmpty(|leaves|, p.index, h);
    var claimed, stored := PathInput(f, value, p, h), NodeInput(f, leaves, h, Ancestor(p.index, h));
    if claimed != stored then Some((claimed, stored))
    else if h == 0 then None
    else Clash(f, leaves, value, p, h - 1)
  }

  /** Two concatenations of hashes are equal only if their halves are. */
  lemma HalvesAgree(a: Hash, b: Hash, c: Hash, d: Hash)
    requires a + b == c + d
    ensures a == c && b == d
  {
    assert a == (a + b)[..32] && c == (c + d)[..32];
    assert b == (a + b)[32..] && d == (c + d)[32..];
  }

  /** Equal inputs at height `h` mean equal hashes on the path and equal siblings one level down. */
  lemma StepDown<V>(f: Hashing<V>, leaves: seq<V>, value: V, p: Proof, h: nat)
    requires p.index < |leaves| && 0 < h <= |p.path| && !Empty(|leaves|, h, Ancestor(p.index, h))
    requires PathInput(f, value, p, h) == NodeInput(f, leaves, h, Ancestor(p.index, h))
    ensures PathHash(f, value, p, h - 1) == Node(f, leaves, h - 1, Ancestor(p.index, h - 1))
    ensures p.path[h - 1] == Node(f, leaves, h - 1, Sibling(Ancestor(p.index, h - 1)))
  {
    var i := Ancestor(p.index, h);
    var left, right := Node(f, leaves, h - 1, 2 * i), Node(f, leaves, h - 1, 2 * i + 1);
    if Ancestor(p.index, h - 1) % 2 == 0 {
      HalvesAgree(PathHash(f, value, p, h - 1), p.path[h - 1], left, right);
    } else {
      HalvesAgree(p.path[h - 1], PathHash(f, value, p, h - 1), left, right);
    }
  }

  lemma {:induction false} DownFrom<V>(f: Hashing<V>, leaves: seq<V>, value: V, p: Proof, h: nat)
    requires p.index < |leaves| && h <= |p.path|
    requires PathHash(f, value, p, h) == Node(f, leaves, h, Ancestor(p.index, h))
    ensures match Clash(f, leaves, value, p, h)
      case Some((a, b)) => a != b && f.digest(a) == f.digest(b)
      case None =>
        && f.encode(value) == f.encode(leaves[p.index])
        && forall g :: 0 <= g < h ==> p.path[g] == Node(f, leaves, g, Sibling(Ancestor(p.index, g)))
  {
    AncestorIsNotEmpty(|leaves|, p.index, h);
    if h > 0 && PathInput(f, value, p, h) == NodeInput(f, leaves, h, Ancestor(p.index, h)) {
      StepDown(f, leaves, value, p, h);
      DownFrom(f, leaves, value, p, h - 1);
    }
  }

  /** Soundness: an accepted proof carries the stored leaf and its genuine siblings, or `Clash` exhibits two
      different inputs with the same hash. */
  lemma AcceptedIsGenuineOrClash<V>(f: Hashing<V>, leaves: seq<V>, value: V, p: Proof)
    requires Accepts(f, Root(f, leaves), |leaves|, value, p)
    ensures match Clash(f, leaves, value, p, |p.path|)
      case Some((a, b)) => a != b && f.digest(a) == f.digest(b)
      case None => f.encode(value) == f.encode(leaves[p.index]) && Genuine(f, leaves, p)
  {
    RootIsTopAncestor(f, leaves, p.index);
    DownFrom(f, leaves, value, p, |p.path|);
  }

  // ---------------------------------------------------------------------------
  // Snapshots
  // ---------------------------------------------------------------------------

  /** What the tree looked like after an operation in block `block`. */
  datatype Moment<G> = Moment(root: Hash, length: nat, block: nat, global: G)

  /** The last moment of a history that lies in a block before `block`. */
  function LastBefore<G>(history: seq<Moment<G>>, block: nat): Option<Moment<G>> {
    if |history| == 0 then None
    else if history[|history| - 1].block < block then Some(history[|history| - 1])
    else LastBefore(history[..|history| - 1], block)
  }

  predicate Chronological<G>(history: seq<Moment<G>>) {
    forall i, j :: 0 <= i < j < |history| ==> history[i].block <= history[j].block
  }

  /** In a chronological history the operations split at `n` into those before `block` and those from it on. */
  lemma {:induction false} LastBeforeSplits<G>(history: seq<Moment<G>>, block: nat) returns (n: nat)
    requires Chronological(history)
    ensures n <= |history|
    ensures forall i :: 0 <= i < |history| ==> (history[i].block < block <==> i < n)
    ensures LastBefore(history, block) == if n == 0 then None else Some(history[n - 1])
  {
    n := |history|;
    if n > 0 && history[n - 1].block >= block {
      var front := history[..n - 1];
      n := LastBeforeSplits(front, block);
      assert forall i :: 0 <= i < |front| ==> history[i] == front[i];
    }
  }

  lemma ChronologicalAppend<G>(history: seq<Moment<G>>, m: Moment<G>)
    requires Chronological(history) && (|history| > 0 ==> history[|history| - 1].block <= m.block)
    ensures Chronological(history + [m])
  {
    forall i, j | 0 <= i < j < |history| + 1 ensures (history + [m])[i].block <= (history + [m])[j].block {
      if j == |history| { assert history[i].block <= history[|history| - 1].block; }
    }
  }

  /** A moment added at the end of the history is not before its own block. */
  lemma HistoryAppend<G>(history: seq<Moment<G>>, m: Moment<G>)
    requires Chronological(history) && (|history| > 0 ==> history[|history| - 1].block <= m.block)
    ensures Chronological(history + [m]) && LastBefore(history + [m], m.block) == LastBefore(history, m.block)
  {
    ChronologicalAppend(history, m);
    hide Chronological, LastBefore;
    LastBeforeStep(history + [m], m.block);
    assert (history + [m])[..|history|] == history;
  }

  lemma LastBeforeStep<G>(history: seq<Moment<G>>, block: nat)
    requires |history| > 0
    ensures LastBefore(history, block) == if history[|history| - 1].block < block then Some(history[|history| - 1])
                                          else LastBefore(history[..|history| - 1], block)
  {
  }

  type AccountId = string

  /** The index-to-value map holds exactly the leaves. */
  ghost predicate Holds<V>(data: map<nat, V>, leaves: seq<V>) {
    && (forall i: nat :: i in data <==> i < |leaves|)
    && (forall i: nat :: i < |leaves| ==> data[i] == leaves[i])
  }

  /** Every account has a leaf of its own. */
  predicate Numbered(accounts: map<AccountId, nat>, n: nat) {
    && (forall id :: id in accounts ==> accounts[id] < n)
    && (forall a, b :: a in accounts && b in accounts && accounts[a] == accounts[b] ==> a == b)
  }

  lemma NumberedAppend(accounts: map<AccountId, nat>, n: nat, id: AccountId)
    requires Numbered(accounts, n) && id !in accounts
    ensures Numbered(accounts[id := n], n + 1)
  {
  }

  lemma NumberedIn(accounts: map<AccountId, nat>, n: nat, id: AccountId)
    requires Numbered(accounts, n) && id in accounts
    ensures accounts[id] < n
  {
  }

  lemma HoldsSet<V>(data: map<nat, V>, leaves: seq<V>, index: nat, value: V)
    requires Holds(data, leaves) && index <= |leaves|
    ensures index < |leaves| ==> index in data && data[index] == leaves[index]
    ensures Holds(data[index := value], WithLeaf(leaves, index, value))
    ensures Changed(leaves, WithLeaf(leaves, index, value), index)
  {
  }

  function WithLeaf<V>(leaves: seq<V>, index: nat, value: V): seq<V>
    requires index <= |leaves|
  {
    if index == |leaves| then leaves + [value] else leaves[index := value]
  }

  class Tree<V, G> {
    var root: Hash
    var length: nat
    var hashes: Hashes
    var data: map<nat, V>
    var accounts: map<AccountId, nat>
    var global: G
    var previous: Option<Moment<G>>
    var lastBlock: nat
    const f: Hashing<V>
    ghost var leaves: seq<V>
    ghost var history: seq<Moment<G>>    // after creation and after every operation

    /** The stored nodes are those of the tree from scratch over `leaves`. */
    ghost predicate Valid()
      reads this
    {
      && length == |leaves| && Holds(data, leaves)
      && Refines(f, hashes, leaves) && root == Root(f, leaves)
      && Numbered(accounts, length)
      && Chronicled()
    }

    /** The snapshot fields hold the end of the last block and of the one before it in the history. */
    ghost predicate Chronicled()
      reads this
    {
      && |history| > 0 && Chronological(history)
      && history[|history| - 1] == Moment(root, length, lastBlock, global)
      && previous == LastBefore(history, lastBlock)
    }

    constructor (f: Hashing<V>, global: G, block: nat)
      ensures Valid() && this.f == f && leaves == [] && accounts == map[]
      ensures history == [Moment(root, 0, block, global)] && fresh(this)
    {
      this.f := f;
      root, length, hashes, data, accounts := ZERO, 0, map[], map[], map[];
      this.global, previous, lastBlock := global, None, block;
      leaves, history := [], [Moment(ZERO, 0, block, global)];
    }

    /** `internal_post_update`: rehashes the path of leaf `index`. */
    method PostUpdate(index: nat)
      requires index < length == |leaves| && Holds(data, leaves)
      requires Climbing(f, hashes, leaves, index, 0)
      modifies this`hashes, this`root
      ensures Refines(f, hashes, leaves) && root == Root(f, leaves)
    {
      hide Climbing, Refines, TreeHeight, Empty;
      RootIsTopAncestor(f, leaves, index);
      ClimbStep(f, hashes, leaves, index, 0);
      hashes := hashes[Place(0, index) := f.digest(f.encode(data[index]))];
      var node := index;
      for h := 1 to TreeHeight(length)
        invariant node == Ancestor(index, h - 1)
        invariant Climbing(f, hashes, leaves, index, h)
      {
        node := node / 2;
        ChildrenStored(f, hashes, leaves, index, h);
        ClimbStep(f, hashes, leaves, index, h);
        var concat: Bytes := GetHash(hashes, h - 1, 2 * node) + GetHash(hashes, h - 1, 2 * node + 1);
        hashes := hashes[Place(h, node) := f.digest(concat)];
      }
      ClimbEnds(f, hashes, leaves, index);
      root := GetHash(hashes, TreeHeight(length) - 1, 0);
    }

    /** `internal_pre_update`: the first change in a new block keeps the state as it stood before. */
    method PreUpdate(block: nat)
      requires Chronicled() && lastBlock <= block
      modifies this`previous, this`lastBlock
      ensures lastBlock == block && previous == LastBefore(history, block)
    {
      if lastBlock != block {
        previous := Some(Moment(root, length, lastBlock, global));
        lastBlock := block;
      }
    }

    /** `get_snapshot`: the tree as it stood after all operations in earlier blocks. */
    method GetSnapshot(block: nat) returns (snapshot: Option<Moment<G>>)
      requires Chronicled() && lastBlock <= block
      ensures snapshot == LastBefore(history, block)
    {
      if lastBlock != block { return Some(Moment(root, length, lastBlock, global)); }
      snapshot := previous;
    }

    method SetGlobalState(g: G, block: nat)
      requires Valid() && lastBlock <= block
      modifies this`previous, this`lastBlock, this`global, this`history
      ensures Valid() && global == g && lastBlock == block
      ensures history == old(history) + [Moment(root, length, block, g)]
    {
      hide Refines, LastBefore, Chronological, Holds, Root;
      PreUpdate(block);
      global := g;
      HistoryAppend(history, Moment(root, length, block, global));
      history := history + [Moment(root, length, block, global)];
    }

    method Set(id: AccountId, value: V, block: nat) returns (oldValue: Option<V>)
      requires Valid() && lastBlock <= block
      modifies this
      ensures Valid() && lastBlock == block && global == old(global)
      ensures id in old(accounts) ==>
        && accounts == old(accounts) && leaves == old(leaves)[old(accounts)[id] := value]
        && oldValue == Some(old(leaves)[old(accounts)[id]])
      ensures id !in old(accounts) ==>
        && accounts == old(accounts)[id := |old(leaves)|] && leaves == old(leaves) + [value]
        && oldValue == None
      ensures history == old(history) + [Moment(root, length, block, global)]
    {
      hide Refines, LastBefore, Climbing, Chronological, Holds, Root, Changed, Numbered;
      if id in accounts { NumberedIn(accounts, length, id); } else { NumberedAppend(accounts, length, id); }
      HoldsSet(data, leaves, if id in accounts then accounts[id] else length, value);
      PreUpdate(block);
      ghost var before := leaves;
      var index := length;
      oldValue := None;
      if id in accounts {
        index := accounts[id];
        oldValue := Some(data[index]);
      } else {
        length, accounts := length + 1, accounts[id := index];
      }
      data, leaves := data[index := value], WithLeaf(leaves, index, value);
      ClimbStarts(f, hashes, before, leaves, index);
      PostUpdate(index);
      HistoryAppend(history, Moment(root, length, block, global));
      history := history + [Moment(root, length, block, global)];
    }

    /** `get_proof`: the siblings on the way up; the proof is accepted against the current root and length. */
    method GetProof(id: AccountId) returns (proof: Option<(Proof, V)>)
      requires Valid()
      ensures proof.Some? <==> id in accounts
      ensures proof.Some? ==>
        && proof.value.0.index == accounts[id] && proof.value.1 == leaves[accounts[id]]
        && Genuine(f, leaves, proof.value.0)
        && Accepts(f, root, length, proof.value.1, proof.value.0)
    {
      hide Accepts, Refines, Chronological, Root;
      if id !in accounts { return None; }
      var path := Siblings(f, hashes, leaves, length, accounts[id]);
      GenuineIsAccepted(f, leaves, Proof(accounts[id], path));
      proof := Some((Proof(accounts[id], path), data[accounts[id]]));
    }
  }
}
