/** The reference description of a Merkle tree over a list of leaf hashes: its layers, its
    flat layout, and what a proof is. `f` hashes two nodes into their parent. */
module MerkleSpec {

  import opened Prelude

  type PairHash = (Hash, Hash) -> Hash

  /** Every layer but the root is brought to even size by repeating its last node. */
  function PaddedSize(n: nat): nat {
    if n > 1 && n % 2 == 1 then n + 1 else n
  }

  function Padded(layer: seq<Hash>): (r: seq<Hash>)
    ensures |r| == PaddedSize(|layer|)
  {
    if |layer| > 1 && |layer| % 2 == 1 then layer + [layer[|layer| - 1]] else layer
  }

  function AboveSize(n: nat): nat {
    (n + 1) / 2
  }

  /** The layer above a layer of at least two nodes. */
  function Above(f: PairHash, layer: seq<Hash>): (r: seq<Hash>)
    requires |layer| > 1
    ensures |r| == AboveSize(|layer|)
  {
    var p := Padded(layer);
    seq(|p| / 2, i requires 0 <= i < |p| / 2 => f(p[2 * i], p[2 * i + 1]))
  }

  /** The flat layout: the root first, the padded leaves last. */
  function Tree(f: PairHash, layer: seq<Hash>): (r: seq<Hash>)
    requires layer != []
    ensures |r| == TreeSize(|layer|)
    decreases |layer|
  {
    if |layer| == 1 then layer else Tree(f, Above(f, layer)) + Padded(layer)
  }

  function TreeSize(n: nat): (r: nat)
    requires n >= 1
    ensures r >= 1
  {
    if n == 1 then 1 else TreeSize(AboveSize(n)) + PaddedSize(n)
  }

  /** `data_size`: the sizes of the layers before padding, leaves first. */
  function LayerSizes(n: nat): (r: seq<nat>)
    requires n >= 1
    ensures |r| >= 1 && r[0] == n
  {
    if n == 1 then [1] else [n] + LayerSizes(AboveSize(n))
  }

  /** What `nodes` and `data_size` hold for a list of leaves. */
  function Nodes(f: PairHash, leaves: seq<Hash>): seq<Hash> {
    if leaves == [] then [] else Tree(f, leaves)
  }

  function DataSizes(n: nat): seq<nat> {
    if n == 0 then [0] else LayerSizes(n)
  }

  function Root(f: PairHash, layer: seq<Hash>): Hash
    requires layer != []
    decreases |layer|
  {
    if |layer| == 1 then layer[0] else Root(f, Above(f, layer))
  }

  function Sibling(layer: seq<Hash>, i: nat): Hash
    requires 1 < |layer| && i < |layer|
  {
    if i % 2 == 0 then Padded(layer)[i + 1] else layer[i - 1]
  }

  /** The sibling at every layer below the root. */
  function ProofOf(f: PairHash, layer: seq<Hash>, i: nat): (r: seq<Hash>)
    requires i < |layer|
    ensures |r| == |LayerSizes(|layer|)| - 1
    decreases |layer|
  {
    if |layer| == 1 then [] else [Sibling(layer, i)] + ProofOf(f, Above(f, layer), i / 2)
  }

  function Join(f: PairHash, acc: Hash, sibling: Hash, i: nat): Hash {
    if i % 2 == 0 then f(acc, sibling) else f(sibling, acc)
  }

  /** The root a proof leads to. */
  function Climb(f: PairHash, acc: Hash, proof: seq<Hash>, i: nat): Hash
    decreases |proof|
  {
    if proof == [] then acc else Climb(f, Join(f, acc, proof[0], i), proof[1..], i / 2)
  }

  ghost predicate Injective(f: PairHash) {
    forall a, b, c, d :: f(a, b) == f(c, d) ==> a == c && b == d
  }

  lemma {:induction false} RootIsFirst(f: PairHash, layer: seq<Hash>)
    requires layer != []
    ensures Tree(f, layer)[0] == Root(f, layer)
    decreases |layer|
  {
    if |layer| > 1 {
      RootIsFirst(f, Above(f, layer));
    }
  }

  /** All layers but the root have even size, so every layer below the root starts at an odd
      index and the parity of a flat index is the opposite of the index in its layer. */
  lemma {:induction false} TreeSizeIsOdd(n: nat)
    requires n >= 1
    ensures TreeSize(n) % 2 == 1
  {
    hide PaddedSize;
    if n > 1 {
      TreeSizeIsOdd(AboveSize(n));
      PaddedIsEven(n);
      OddPlusEven(TreeSize(AboveSize(n)), PaddedSize(n));
    }
  }

  lemma PaddedIsEven(n: nat)
    requires n > 1
    ensures PaddedSize(n) % 2 == 0
  {
  }

  lemma OddPlusEven(a: nat, b: nat)
    requires a % 2 == 1 && b % 2 == 0
    ensures (a + b) % 2 == 1
  {
  }

  lemma JoinIsParent(f: PairHash, layer: seq<Hash>, i: nat)
    requires |layer| > 1 && i < |layer|
    ensures i / 2 < |Above(f, layer)|
    ensures Above(f, layer)[i / 2] == Join(f, layer[i], Sibling(layer, i), i)
  {
    var p := Padded(layer);
    assert Above(f, layer)[i / 2] == f(p[2 * (i / 2)], p[2 * (i / 2) + 1]);
  }

  /** The honest proof leads to the root. */
  lemma {:induction false} ProofVerifies(f: PairHash, layer: seq<Hash>, i: nat)
    requires i < |layer|
    ensures Climb(f, layer[i], ProofOf(f, layer, i), i) == Root(f, layer)
    decreases |layer|
  {
    if |layer| > 1 {
      JoinIsParent(f, layer, i);
      var p := ProofOf(f, layer, i);
      assert p[1..] == ProofOf(f, Above(f, layer), i / 2);
      ProofVerifies(f, Above(f, layer), i / 2);
    }
  }

  /** With an injective pair hash no other leaf hash and no other proof of the right length
      leads to the root. */
  lemma {:induction false} OnlyProofVerifies(f: PairHash, layer: seq<Hash>, i: nat, d: Hash, p: seq<Hash>)
    requires i < |layer| && |p| == |LayerSizes(|layer|)| - 1
    requires Injective(f)
    requires Climb(f, d, p, i) == Root(f, layer)
    ensures d == layer[i] && p == ProofOf(f, layer, i)
    decreases |layer|
  {
    hide Injective, Join, Sibling, Above;
    if |layer| > 1 {
      JoinIsParent(f, layer, i);
      OnlyProofVerifies(f, Above(f, layer), i / 2, Join(f, d, p[0], i), p[1..]);
      JoinInjective(f, d, p[0], layer[i], Sibling(layer, i), i);
      assert p == [p[0]] + p[1..];
    } else {
      assert p == [];
    }
  }

  lemma JoinInjective(f: PairHash, a: Hash, b: Hash, c: Hash, d: Hash, i: nat)
    requires Injective(f) && Join(f, a, b, i) == Join(f, c, d, i)
    ensures a == c && b == d
  {
  }

  /** What `verify` decides: the proof has one entry per layer below the root of a tree of `n`
      leaves, and leads from `d` at position `i` to `root`. */
  ghost predicate Accepts(f: PairHash, root: Hash, d: Hash, p: seq<Hash>, i: nat, n: nat) {
    i < n && |p| + 1 == |LayerSizes(n)| && Climb(f, d, p, i) == root
  }

  /** The proof of a leaf is accepted, whatever the hash. */
  lemma ProofIsAccepted(f: PairHash, leaves: seq<Hash>, i: nat)
    requires i < |leaves|
    ensures Accepts(f, Root(f, leaves), leaves[i], ProofOf(f, leaves, i), i, |leaves|)
  {
    ProofVerifies(f, leaves, i);
  }

  /** Soundness and completeness of Merkle proofs. */
  lemma AcceptsExactlyTheProof(f: PairHash, leaves: seq<Hash>, i: nat, d: Hash, p: seq<Hash>)
    requires i < |leaves| && Injective(f)
    ensures Accepts(f, Root(f, leaves), d, p, i, |leaves|) <==> d == leaves[i] && p == ProofOf(f, leaves, i)
  {
    ProofVerifies(f, leaves, i);
    if Accepts(f, Root(f, leaves), d, p, i, |leaves|) {
      OnlyProofVerifies(f, leaves, i, d, p);
    }
  }

  lemma AboveAfterUpdate(f: PairHash, layer: seq<Hash>, i: nat, v: Hash)
    requires |layer| > 1 && i < |layer|
    ensures i / 2 < AboveSize(|layer|)
    ensures var up := Above(f, layer[i := v]);
            up == Above(f, layer)[i / 2 := up[i / 2]]
  {
    var p, q := Padded(layer), Padded(layer[i := v]);
    assert forall k | 0 <= k < |p| && k / 2 != i / 2 :: p[k] == q[k];
    var up, down := Above(f, layer[i := v]), Above(f, layer);
    forall k | 0 <= k < |down| && k != i / 2
      ensures up[k] == down[k]
    {
      assert (2 * k) / 2 == k && (2 * k + 1) / 2 == k;
    }
  }

  /** The layer of `nodes` at `start` changes at `i`; a repeated last node changes with it. */
  function WriteBack(nodes: seq<Hash>, start: nat, size: nat, i: nat, v: Hash): seq<Hash>
    requires i < size && start + PaddedSize(size) <= |nodes|
  {
    if size > 1 && size % 2 == 1 && i == size - 1 then nodes[start + i := v][start + i + 1 := v]
    else nodes[start + i := v]
  }

  lemma WriteBackLayer(upper: seq<Hash>, layer: seq<Hash>, lower: seq<Hash>, i: nat, v: Hash)
    requires i < |layer|
    ensures WriteBack(upper + Padded(layer) + lower, |upper|, |layer|, i, v) ==
            upper + Padded(layer[i := v]) + lower
  {
  }

  lemma MiddleAt(upper: seq<Hash>, middle: seq<Hash>, lower: seq<Hash>, i: nat)
    requires i < |middle|
    ensures (upper + middle + lower)[|upper| + i] == middle[i]
  {
  }
}
