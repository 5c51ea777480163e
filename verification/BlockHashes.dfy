/** The hashes of headers and contents, src/block. A block's hash covers its header only; the
    header commits to its content through Merkle roots. */
module BlockHashes {
  import opened Prelude
  import opened Blocks
  import opened MerkleSpec
  import opened MerkleRoots
  import Merkle

  /** The hash functions over byte strings of different make: a header, two nodes, one reference,
      a transaction, and the three parts of a voter content. */
  datatype Hashes = Hashes(
    header: Header -> Hash, pair: PairHash, leaf: Hash -> Hash, transaction: nat -> Hash, vote: (nat, Hash, Hash) -> Hash)

  /** The block carries the hash of its header. */
  predicate Hashed(hashes: Hashes, b: Block) {
    b.hash == hashes.header(b.header)
  }

  /** The root of `MerkleTree::new` on a list. */
  function ListRoot<T>(f: PairHash, hash: T -> Hash, list: seq<T>): Hash {
    if list == [] then Merkle.ZERO_HASH else Root(f, Merkle.HashAll(hash, list))
  }

  /** `Content::hash`. */
  function ContentHash(hashes: Hashes, content: Content): Hash {
    match content
    case Proposer(txRefs, refs) =>
      hashes.pair(ListRoot(hashes.pair, hashes.leaf, txRefs), ListRoot(hashes.pair, hashes.leaf, refs))
    case Voter(chain, parent, votes) => hashes.vote(chain, parent, ListRoot(hashes.pair, hashes.leaf, votes))
    case Transaction(transactions) => ListRoot(hashes.pair, hashes.transaction, transactions)
  }

  function Hasher(hashes: Hashes): Content -> Hash {
    content => ContentHash(hashes, content)
  }

  /** A leaf hash that collides with no other leaf, no pair and not with the empty list. */
  ghost predicate CleanLeaves<T(!new)>(f: PairHash, hash: T -> Hash) {
    && (forall x, y :: hash(x) == hash(y) ==> x == y)
    && (forall x, p, q :: hash(x) != f(p, q))
    && forall x :: hash(x) != Merkle.ZERO_HASH
  }

  ghost predicate CollisionFree(hashes: Hashes) {
    && Injective(hashes.pair) && (forall p, q :: hashes.pair(p, q) != Merkle.ZERO_HASH)
    && CleanLeaves(hashes.pair, hashes.leaf) && CleanLeaves(hashes.pair, hashes.transaction)
    && (forall c, p, r, c', p', r' :: hashes.vote(c, p, r) == hashes.vote(c', p', r') ==> c == c' && p == p' && r == r')
    && VotesApart(hashes)
  }

  /** The hash of a voter content is neither that of a pair, nor of a transaction, nor zero. */
  ghost predicate VotesApart(hashes: Hashes) {
    && (forall c, p, r, x, y :: hashes.vote(c, p, r) != hashes.pair(x, y))
    && (forall c, p, r, t :: hashes.vote(c, p, r) != hashes.transaction(t))
    && forall c, p, r :: hashes.vote(c, p, r) != Merkle.ZERO_HASH
  }

  lemma AlikeHashes<T(!new)>(f: PairHash, hash: T -> Hash, a: seq<T>, b: seq<T>)
    requires CleanLeaves(f, hash) && a != [] && b != []
    ensures Alike(Merkle.HashAll(hash, a), Merkle.HashAll(hash, b)) <==> Alike(a, b)
  {
    var a', b' := Merkle.HashAll(hash, a), Merkle.HashAll(hash, b);
    forall i: nat
      ensures At(a', i) == At(b', i) <==> At(a, i) == At(b, i)
    {
      assert At(a', i) == hash(At(a, i)) && At(b', i) == hash(At(b, i));
    }
  }

  lemma {:induction false} RootIsNotZero(f: PairHash, layer: seq<Hash>)
    requires layer != [] && (forall p, q :: f(p, q) != Merkle.ZERO_HASH) && Merkle.ZERO_HASH !in layer
    ensures Root(f, layer) != Merkle.ZERO_HASH
    decreases |layer|
  {
    if |layer| > 1 {
      var p := Padded(layer);
      assert forall i | 0 <= i < |Above(f, layer)| :: Above(f, layer)[i] == f(p[2 * i], p[2 * i + 1]);
      RootIsNotZero(f, Above(f, layer));
    }
  }

  /** Lists have one root exactly if they are alike. */
  lemma ListRootsAgree<T(!new)>(f: PairHash, hash: T -> Hash, a: seq<T>, b: seq<T>)
    requires Injective(f) && (forall p, q :: f(p, q) != Merkle.ZERO_HASH) && CleanLeaves(f, hash)
    ensures ListRoot(f, hash, a) == ListRoot(f, hash, b) <==> Alike(a, b)
  {
    hide Injective, Alike, Root;
    var a', b' := Merkle.HashAll(hash, a), Merkle.HashAll(hash, b);
    if a == [] && b != [] {
      RootIsNotZero(f, b');
      EmptyIsAlone(a, b);
    } else if a != [] && b == [] {
      RootIsNotZero(f, a');
      EmptyIsAlone(a, b);
    } else if a != [] && b != [] {
      RootsAgree(f, a', b');
      AlikeHashes(f, hash, a, b);
    } else {
      AlikeOfOneLength(a, b);
    }
  }

  lemma EmptyIsAlone<T(!new)>(a: seq<T>, b: seq<T>)
    requires a == [] || b == []
    ensures Alike(a, b) <==> a == b
  {
  }

  /** Contents of one kind whose lists are alike. */
  ghost predicate SameContent(a: Content, b: Content) {
    match (a, b)
    case (Proposer(txRefs, refs), Proposer(txRefs', refs')) => Alike(txRefs, txRefs') && Alike(refs, refs')
    case (Voter(chain, parent, votes), Voter(chain', parent', votes')) => chain == chain' && parent == parent' && Alike(votes, votes')
    case (Transaction(txs), Transaction(txs')) => Alike(txs, txs')
    case _ => false
  }

  ghost predicate SameKind(a: Content, b: Content) {
    (a.Proposer? <==> b.Proposer?) && (a.Voter? <==> b.Voter?)
  }

  /** The content hash tells contents of one kind apart up to repeated tails of their lists, and
      no further. */
  lemma ContentHashesAgree(hashes: Hashes, a: Content, b: Content)
    requires CollisionFree(hashes) && SameKind(a, b)
    ensures ContentHash(hashes, a) == ContentHash(hashes, b) <==> SameContent(a, b)
  {
    hide CleanLeaves, ListRoot, Alike;
    match a {
      case Proposer(txRefs, refs) =>
        ListRootsAgree(hashes.pair, hashes.leaf, txRefs, b.transactionRefs);
        ListRootsAgree(hashes.pair, hashes.leaf, refs, b.proposerRefs);
      case Voter(_, _, votes) =>
        ListRootsAgree(hashes.pair, hashes.leaf, votes, b.votes);
      case Transaction(transactions) =>
        ListRootsAgree(hashes.pair, hashes.transaction, transactions, b.transactions);
    }
  }

  /** A voter content has the hash of no other kind of content. */
  lemma VotersHashApart(hashes: Hashes, a: Content, b: Content)
    requires CollisionFree(hashes) && (a.Voter? <==> !b.Voter?)
    ensures ContentHash(hashes, a) != ContentHash(hashes, b)
  {
    var voter, other := if a.Voter? then a else b, if a.Voter? then b else a;
    if other.Transaction? && other.transactions != [] {
      RootIsLeafOrPair(hashes.pair, Merkle.HashAll(hashes.transaction, other.transactions));
    }
  }

  lemma {:induction false} RootIsLeafOrPair(f: PairHash, layer: seq<Hash>)
    requires layer != []
    ensures Root(f, layer) == layer[0] || IsPair(f, Root(f, layer))
    decreases |layer|
  {
    if |layer| > 1 {
      FirstIsPair(f, layer);
      hide Above, IsPair;
      RootIsLeafOrPair(f, Above(f, layer));
    }
  }

  /** Two proposer contents under one hash, whatever the hash functions: the second refers to the
      last of an odd number of transaction blocks once more. */
  lemma TwinContent(hashes: Hashes, txRefs: seq<Hash>, refs: seq<Hash>)
    requires |txRefs| > 1 && |txRefs| % 2 == 1
    ensures var a, b := Content.Proposer(txRefs, refs), Content.Proposer(txRefs + [Last(txRefs)], refs);
            a != b && ContentHash(hashes, a) == ContentHash(hashes, b)
  {
    hide Root, Merkle.HashAll;
    var leaves := Merkle.HashAll(hashes.leaf, txRefs);
    HashTail(hashes.leaf, txRefs);
    RepeatedTail(hashes.pair, leaves);
    assert |txRefs + [Last(txRefs)]| != |txRefs|;
  }

  lemma HashTail(hash: Hash -> Hash, list: seq<Hash>)
    requires list != []
    ensures var leaves := Merkle.HashAll(hash, list);
            |leaves| == |list| && Merkle.HashAll(hash, list + [Last(list)]) == leaves + [Last(leaves)]
  {
  }
}
