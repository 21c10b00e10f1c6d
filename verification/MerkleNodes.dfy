/** The Merkle tree as a function of its leaves, and the shape of paths through it. */
module MerkleNodes {
  import opened Arith

  type Byte = bv8
  type Bytes = seq<Byte>

  function Zeros(n: nat): (b: Bytes)
    ensures |b| == n
  {
    if n == 0 then [] else [0] + Zeros(n - 1)
  }

  type Hash = b: Bytes | |b| == 32 witness Zeros(32)

  /** The hash of an empty subtree. */
  const ZERO: Hash := Zeros(32)

  /** The hash function and the leaf serialization the tree is built with. */
  datatype Hashing<!V> = Hashing(digest: Bytes -> Hash, encode: V -> Bytes)

  // ---------------------------------------------------------------------------
  // Heights and indices
  // ---------------------------------------------------------------------------

  function Pow2(h: nat): (p: nat)
    ensures p > 0
  {
    if h == 0 then 1 else 2 * Pow2(h - 1)
  }

  /** The number of significant bits, `32 - leading_zeros` of a 32-bit number. */
  function BitLength(n: nat): nat {
    if n == 0 then 0 else 1 + BitLength(n / 2)
  }

  /** Levels of a tree of `length` leaves, the root included. */
  function TreeHeight(length: nat): nat {
    if length == 0 then 0 else 1 + BitLength(length - 1)
  }

  /** `index >> h`: the ancestor of leaf `index` at height `h`. */
  function Ancestor(index: nat, h: nat): nat {
    if h == 0 then index else Ancestor(index, h - 1) / 2
  }

  /** `index ^ 1`. */
  function Sibling(index: nat): nat {
    if index % 2 == 0 then index + 1 else index - 1
  }

  /** The leaves below node `i` at height `h` start beyond the last one. */
  predicate Empty(n: nat, h: nat, i: nat) { i * Pow2(h) >= n }

  lemma {:induction false} BitLengthFits(n: nat)
    ensures n < Pow2(BitLength(n))
    ensures n > 0 ==> Pow2(BitLength(n) - 1) <= n
  {
    if n > 0 {
      BitLengthFits(n / 2);
      if n > 1 { assert Pow2(BitLength(n) - 1) == 2 * Pow2(BitLength(n / 2) - 1); }
    }
  }

  lemma {:induction false} Pow2Grows(a: nat, b: nat)
    requires a <= b
    ensures Pow2(a) <= Pow2(b)
  {
    if a < b { Pow2Grows(a, b - 1); }
  }

  /** The height is the least one whose top level has a single node. */
  lemma HeightIsLeast(n: nat, h: nat)
    requires n > 0
    ensures h + 1 >= TreeHeight(n) <==> n <= Pow2(h)
  {
    BitLengthFits(n - 1);
    if h >= BitLength(n - 1) {
      Pow2Grows(BitLength(n - 1), h);
    } else {
      Pow2Grows(h, BitLength(n - 1) - 1);
    }
  }

  lemma AncestorBounds(index: nat, h: nat)
    ensures Ancestor(index, h) * Pow2(h) <= index < (Ancestor(index, h) + 1) * Pow2(h)
  {
    if h > 0 {
      var a, p := Ancestor(index, h - 1), Pow2(h - 1);
      AncestorBounds(index, h - 1);
      HalfBounds(a, p, index);
    }
  }

  lemma HalfBounds(a: nat, p: nat, index: nat)
    requires a * p <= index < (a + 1) * p
    ensures (a / 2) * (2 * p) <= index < (a / 2 + 1) * (2 * p)
  {
    var q := a / 2;
    assert q * (2 * p) == (2 * q) * p && (q + 1) * (2 * p) == (2 * q + 2) * p;
    if a == 2 * q {
      assert (2 * q + 2) * p == (a + 1) * p + p;
    } else {
      assert a == 2 * q + 1;
      assert (2 * q + 1) * p == (2 * q) * p + p;
    }
  }

  lemma AncestorIsNotEmpty(n: nat, index: nat, h: nat)
    requires index < n
    ensures !Empty(n, h, Ancestor(index, h))
  {
    AncestorBounds(index, h);
  }

  lemma Multiple(i: nat, p: nat)
    requires i > 0
    ensures i * p >= p
  {
  }

  /** From the top level up there is only one node that is not empty. */
  lemma TopIsSingle(n: nat, h: nat, i: nat)
    requires n > 0 && h + 1 >= TreeHeight(n)
    ensures i > 0 ==> Empty(n, h, i)
    ensures i < n ==> Ancestor(i, h) == 0
  {
    hide Pow2, Ancestor;
    HeightIsLeast(n, h);
    AncestorBounds(i, h);
    if i > 0 { Multiple(i, Pow2(h)); }
    if Ancestor(i, h) > 0 { Multiple(Ancestor(i, h), Pow2(h)); }
  }

  /** A multiple of `p` inside the block `[a * p, (a + 1) * p)` is its start. */
  lemma BlockStart(i: nat, a: nat, p: nat, n: nat)
    requires a * p <= n < (a + 1) * p && i * p == n
    ensures i == a
  {
    if i < a {
      MulMono(p, i + 1, a);
    } else if i > a {
      MulMono(p, a + 1, i);
    }
  }

  /** Adding leaf `n` fills only its own ancestors. */
  lemma EmptyAfterAppend(n: nat, h: nat, i: nat)
    requires i != Ancestor(n, h)
    ensures Empty(n + 1, h, i) <==> Empty(n, h, i)
  {
    hide Pow2, Ancestor;
    AncestorBounds(n, h);
    if i * Pow2(h) == n { BlockStart(i, Ancestor(n, h), Pow2(h), n); }
  }

  lemma HeightGrows(n: nat)
    requires n > 0
    ensures TreeHeight(n) <= TreeHeight(n + 1) <= TreeHeight(n) + 1
  {
    var h := TreeHeight(n) - 1;
    HeightIsLeast(n, h);
    assert Pow2(h + 1) == 2 * Pow2(h);
    HeightIsLeast(n + 1, h + 1);
    HeightIsLeast(n, TreeHeight(n + 1) - 1);
    HeightIsLeast(n + 1, TreeHeight(n + 1) - 1);
  }

  // ---------------------------------------------------------------------------
  // The tree from scratch
  // ---------------------------------------------------------------------------

  /** The bytes hashed at a node that is not empty. */
  function NodeInput<V>(f: Hashing<V>, leaves: seq<V>, h: nat, i: nat): Bytes
    requires !Empty(|leaves|, h, i)
    decreases h, 0
  {
    if h == 0 then f.encode(leaves[i])
    else Node(f, leaves, h - 1, 2 * i) + Node(f, leaves, h - 1, 2 * i + 1)
  }

  /** The hash of node `i` at height `h`, all zeros for an empty subtree. */
  function Node<V>(f: Hashing<V>, leaves: seq<V>, h: nat, i: nat): Hash
    decreases h, 1
  {
    if Empty(|leaves|, h, i) then ZERO else f.digest(NodeInput(f, leaves, h, i))
  }

  function Root<V>(f: Hashing<V>, leaves: seq<V>): Hash {
    if |leaves| == 0 then ZERO else Node(f, leaves, TreeHeight(|leaves|) - 1, 0)
  }

  /** `after` is `before` with leaf `index` replaced, or added at the end. */
  ghost predicate Changed<V>(before: seq<V>, after: seq<V>, index: nat) {
    && index < |after|
    && (|after| == |before| || (|after| == |before| + 1 && index == |before|))
    && forall i :: 0 <= i < |after| && i != index ==> after[i] == before[i]
  }

  /** Nodes off the path of the changed leaf keep their hash. */
  lemma {:induction false} OffPathUnchanged<V>(f: Hashing<V>, before: seq<V>, after: seq<V>, index: nat, h: nat, i: nat)
    requires Changed(before, after, index) && i != Ancestor(index, h)
    ensures Node(f, after, h, i) == Node(f, before, h, i)
    decreases h
  {
    if |after| > |before| { EmptyAfterAppend(|before|, h, i); }
    if h == 0 {
    } else if !Empty(|after|, h, i) {
      OffPathUnchanged(f, before, after, index, h - 1, 2 * i);
      OffPathUnchanged(f, before, after, index, h - 1, 2 * i + 1);
    }
  }

  // ---------------------------------------------------------------------------
  // The tree from the top down
  // ---------------------------------------------------------------------------

  function Least(a: nat, b: nat): nat { if a <= b then a else b }

  /** The leaves from `lo` up to `hi`, as far as there are any. */
  function Slice<V>(leaves: seq<V>, lo: nat, hi: nat): seq<V>
    requires lo <= hi
  {
    leaves[Least(lo, |leaves|)..Least(hi, |leaves|)]
  }

  /** A list of leaves hashed by halving it: the left half is full, an empty half is all zeros. */
  function Halved<V>(f: Hashing<V>, leaves: seq<V>, h: nat): Hash
    decreases h
  {
    if leaves == [] then ZERO
    else if h == 0 then f.digest(f.encode(leaves[0]))
    else
      var half := Least(Pow2(h - 1), |leaves|);
      f.digest(Halved(f, leaves[..half], h - 1) + Halved(f, leaves[half..], h - 1))
  }

  lemma SliceHalves<V>(leaves: seq<V>, i: nat, p: nat)
    ensures var s := Slice(leaves, i * (2 * p), i * (2 * p) + 2 * p);
            var half := Least(p, |s|);
            && s[..half] == Slice(leaves, 2 * i * p, 2 * i * p + p)
            && s[half..] == Slice(leaves, (2 * i + 1) * p, (2 * i + 1) * p + p)
  {
    assert i * (2 * p) == 2 * i * p && (2 * i + 1) * p == 2 * i * p + p;
  }

  /** The leaves below node `i` at height `h`. */
  function Below<V>(leaves: seq<V>, h: nat, i: nat): seq<V> { Slice(leaves, i * Pow2(h), i * Pow2(h) + Pow2(h)) }

  lemma BelowHalves<V>(leaves: seq<V>, h: nat, i: nat)
    requires h > 0
    ensures var s := Below(leaves, h, i);
            var half := Least(Pow2(h - 1), |s|);
            s[..half] == Below(leaves, h - 1, 2 * i) && s[half..] == Below(leaves, h - 1, 2 * i + 1)
  {
    var p := Pow2(h - 1);
    assert Pow2(h) == 2 * p;
    hide Pow2, Slice;
    assert Below(leaves, h, i) == Slice(leaves, i * (2 * p), i * (2 * p) + 2 * p);
    SliceHalves(leaves, i, p);
  }

  lemma BelowIsEmpty<V>(leaves: seq<V>, h: nat, i: nat)
    ensures Below(leaves, h, i) == [] <==> Empty(|leaves|, h, i)
    ensures h == 0 && !Empty(|leaves|, h, i) ==> Below(leaves, h, i) == [leaves[i]]
  {
  }

  lemma HalvedStep<V>(f: Hashing<V>, leaves: seq<V>, h: nat)
    requires leaves != [] && h > 0
    ensures var half := Least(Pow2(h - 1), |leaves|);
            Halved(f, leaves, h) == f.digest(Halved(f, leaves[..half], h - 1) + Halved(f, leaves[half..], h - 1))
  {
  }

  lemma NodeStep<V>(f: Hashing<V>, leaves: seq<V>, h: nat, i: nat)
    requires h > 0 && !Empty(|leaves|, h, i)
    ensures Node(f, leaves, h, i) == f.digest(Node(f, leaves, h - 1, 2 * i) + Node(f, leaves, h - 1, 2 * i + 1))
  {
    hide Empty;
  }

  lemma NodeBase<V>(f: Hashing<V>, leaves: seq<V>, h: nat, i: nat)
    requires h == 0 || Empty(|leaves|, h, i)
    ensures Node(f, leaves, h, i) == Halved(f, Below(leaves, h, i), h)
  {
    BelowIsEmpty(leaves, h, i);
    if !Empty(|leaves|, h, i) { assert Halved(f, [leaves[i]], 0) == f.digest(f.encode(leaves[i])); }
  }

  /** A node is the hash of the leaves below it, halved. */
  lemma {:induction false} NodeIsHalved<V>(f: Hashing<V>, leaves: seq<V>, h: nat, i: nat)
    ensures Node(f, leaves, h, i) == Halved(f, Below(leaves, h, i), h)
    decreases h
  {
    hide Below, Empty, Pow2, Node, Halved;
    if h == 0 || Empty(|leaves|, h, i) {
      NodeBase(f, leaves, h, i);
    } else {
      NodeIsHalved(f, leaves, h - 1, 2 * i);
      NodeIsHalved(f, leaves, h - 1, 2 * i + 1);
      BelowIsEmpty(leaves, h, i);
      BelowHalves(leaves, h, i);
      NodeStep(f, leaves, h, i);
      HalvedStep(f, Below(leaves, h, i), h);
    }
  }

  /** The root is the hash of all leaves, halved from the least power of two that holds them. */
  lemma RootIsHalved<V>(f: Hashing<V>, leaves: seq<V>)
    requires leaves != []
    ensures Root(f, leaves) == Halved(f, leaves, TreeHeight(|leaves|) - 1)
  {
    var h := TreeHeight(|leaves|) - 1;
    hide TreeHeight, Node, Halved;
    HeightIsLeast(|leaves|, h);
    NodeIsHalved(f, leaves, h, 0);
    assert Below(leaves, h, 0) == leaves;
  }
}
