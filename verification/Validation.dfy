/** Block validation, src/validation. */
module Validation {
  import opened Prelude
  import opened Blocks
  import opened ProposerGraph
  import opened VoterTrees
  import opened VoteLevels
  import opened ChainState
  import opened Sortition
  import opened BlockHashes
  import opened MerkleSpec
  import opened MerkleRoots

  /** `BlockResult`, and `Panicked` for an arithmetic overflow or an `unreachable!`. */
  datatype Verdict =
    | Pass
    | WrongPoW
    | WrongSortitionId
    | WrongSortitionProof
    | MissingReferences(missing: seq<Hash>)
    | WrongProposerRef
    | WrongChainNumber
    | WrongVoteLevel
    | WrongSignature
    | Panicked

  /** What validation needs besides the chain: the sortition widths, the hash functions, and the
      foreign signature check of a list of transactions. */
  datatype Rules = Rules(widths: Widths, hashes: Hashes, signed: seq<nat> -> bool)

  /** Sortition ids are 16-bit numbers, and so is the sum that gives the id of a voter chain: in a
      release build it wraps around. */
  const U16_LIMIT: nat := 0x1_0000

  /** The sortition id that a block of this kind must have, before wrapping. */
  function IdOf(content: Content): nat {
    match content
    case Proposer(_, _) => PROPOSER_INDEX
    case Transaction(_) => TRANSACTION_INDEX
    case Voter(chain, _, _) => chain + FIRST_VOTER_INDEX
  }

  /** `check_pow_sortition_id`. */
  function CheckPowSortitionId(r: Rules, b: Block): Verdict
    requires r.widths.Valid()
  {
    match SortitionHash(r.widths, b.hash, b.header.difficulty)
    case Mined(id) => if id == IdOf(b.content) % U16_LIMIT then Pass else WrongSortitionId
    case NotMined => WrongPoW
    case Panic => Panicked
  }

  /** `check_sortition_proof`. */
  method CheckSortitionProof(r: Rules, b: Block) returns (v: Verdict)
    requires r.widths.Valid()
    ensures v == Pass <==> ProvesContent(r, b)
    ensures v != Panicked <==> SortitionHash(r.widths, b.hash, b.header.difficulty).Mined?
  {
    match SortitionHash(r.widths, b.hash, b.header.difficulty) {
      case Mined(id) =>
        var ok := Merkle.Verify(r.hashes.pair, b.header.contentMerkleRoot, ContentHash(r.hashes, b.content), b.sortitionProof,
                                id, r.widths.voterChains + FIRST_VOTER_INDEX);
        v := if ok then Pass else WrongSortitionProof;
      case _ =>
        v := Panicked;
    }
  }

  /** The content sits in the Merkle tree of the header, at the place of the sortition id. */
  ghost predicate ProvesContent(r: Rules, b: Block)
    requires r.widths.Valid()
  {
    var o := SortitionHash(r.widths, b.hash, b.header.difficulty);
    && o.Mined?
    && Accepts(r.hashes.pair, b.header.contentMerkleRoot, ContentHash(r.hashes, b.content), b.sortitionProof, o.id,
               r.widths.voterChains + FIRST_VOTER_INDEX)
  }

  /** A block with the header of a miner that worked on `contents` passes both checks exactly if
      it is mined for its own kind, its content is that miner's candidate of this kind up to
      repeated tails of lists, and its proof is the candidate's. */
  lemma ContentIsBound(r: Rules, b: Block, contents: seq<Content>)
    requires r.widths.Valid() && CollisionFree(r.hashes) && |contents| == r.widths.voterChains + FIRST_VOTER_INDEX
    requires forall i | 0 <= i < |contents| :: IdOf(contents[i]) == i
    requires b.header.contentMerkleRoot == Root(r.hashes.pair, Merkle.HashAll(Hasher(r.hashes), contents))
    ensures var id := IdOf(b.content);
            CheckPowSortitionId(r, b) == Pass && ProvesContent(r, b) <==>
            && SortitionHash(r.widths, b.hash, b.header.difficulty) == Mined(id)
            && id < |contents| && SameContent(b.content, contents[id])
            && b.sortitionProof == ProofOf(r.hashes.pair, Merkle.HashAll(Hasher(r.hashes), contents), id)
  {
    hide SortitionHash, Accepts, Root, ProofOf, SameContent, CollisionFree;
    var o := SortitionHash(r.widths, b.hash, b.header.difficulty);
    var leaves := Merkle.HashAll(Hasher(r.hashes), contents);
    if o.Mined? && o.id == IdOf(b.content) % U16_LIMIT {
      IdInRange(r.widths, b.hash, b.header.difficulty);
      PairsAreInjective(r.hashes);
      AcceptsExactlyTheProof(r.hashes.pair, leaves, o.id, ContentHash(r.hashes, b.content), b.sortitionProof);
      assert leaves[o.id] == ContentHash(r.hashes, contents[o.id]);
      SameContentSameId(b.content, contents[o.id]);
      if SameKind(b.content, contents[o.id]) {
        ContentHashesAgree(r.hashes, b.content, contents[o.id]);
      } else {
        VotersHashApart(r.hashes, b.content, contents[o.id]);
      }
    }
    IdsDoNotWrap(r, b);
  }

  lemma SameContentSameId(a: Content, b: Content)
    ensures SameContent(a, b) ==> SameKind(a, b) && IdOf(a) == IdOf(b)
  {
  }

  /** No id of a configured chain comes from wrapping around. */
  lemma IdsDoNotWrap(r: Rules, b: Block)
    requires r.widths.Valid()
    ensures SortitionHash(r.widths, b.hash, b.header.difficulty) == Mined(IdOf(b.content)) ==> IdOf(b.content) < U16_LIMIT
  {
    hide SortitionHash;
    if SortitionHash(r.widths, b.hash, b.header.difficulty).Mined? {
      IdInRange(r.widths, b.hash, b.header.difficulty);
    }
  }

  /** A voter content for a chain that does not exist, whose id wraps around to that of the block. */
  function Wrapped(b: Block): Block {
    b.(content := Content.Voter(U16_LIMIT - FIRST_VOTER_INDEX + IdOf(b.content) % FIRST_VOTER_INDEX, b.header.parent, []))
  }

  /** For every proposer or transaction block there is another block with its header, and so its
      hash, that passes the check of the proof of work. */
  lemma WrappedIsMined(r: Rules, b: Block)
    requires r.widths.Valid() && !b.content.Voter?
    ensures Wrapped(b) != b && Wrapped(b).header == b.header && Wrapped(b).hash == b.hash
    ensures CheckPowSortitionId(r, Wrapped(b)) == CheckPowSortitionId(r, b)
  {
    hide SortitionHash;
    assert IdOf(Wrapped(b).content) == U16_LIMIT + IdOf(b.content);
  }

  lemma PairsAreInjective(hashes: Hashes)
    requires CollisionFree(hashes)
    ensures Injective(hashes.pair)
  {
  }

  /** The votes of an accepted voter block are bound exactly: their number is fixed by the parents. */
  lemma VotesAreBound(s: State, b: Block, twin: Block)
    requires b.content.Voter? && Acceptable(s, b) && Acceptable(s, twin)
    requires twin.header == b.header && SameContent(twin.content, b.content)
    ensures twin.content == b.content
  {
    hide Alike;
    AlikeOfOneLength(twin.content.votes, b.content.votes);
  }

  /** The block that refers to the last of its transaction blocks once more. */
  function Twin(b: Block): Block
    requires b.content.Proposer? && b.content.transactionRefs != []
  {
    b.(content := b.content.(transactionRefs := b.content.transactionRefs + [Last(b.content.transactionRefs)]))
  }

  /** References of a proposer block are not bound: with an odd number of them, at least three,
      its twin has the same hash and passes every check that the block passes. */
  lemma TwinIsAsValid(r: Rules, s: State, b: Block)
    requires r.widths.Valid() && b.content.Proposer?
    requires |b.content.transactionRefs| > 1 && |b.content.transactionRefs| % 2 == 1
    ensures Twin(b) != b && Twin(b).hash == b.hash && (Hashed(r.hashes, b) ==> Hashed(r.hashes, Twin(b)))
    ensures CheckPowSortitionId(r, Twin(b)) == CheckPowSortitionId(r, b) && (ProvesContent(r, b) <==> ProvesContent(r, Twin(b)))
    ensures Acceptable(s, Twin(b)) <==> Acceptable(s, b)
  {
    hide ProvesContent, CheckPowSortitionId, RefsBelow;
    TwinProves(r, b);
    var refs := b.content.transactionRefs;
    assert Last(refs) in refs;
    assert forall t | t in refs + [Last(refs)] :: t in refs;
    assert forall t | t in refs :: t in refs + [Last(refs)];
  }

  lemma TwinProves(r: Rules, b: Block)
    requires r.widths.Valid() && b.content.Proposer?
    requires |b.content.transactionRefs| > 1 && |b.content.transactionRefs| % 2 == 1
    ensures Twin(b) != b && Twin(b).hash == b.hash && (Hashed(r.hashes, b) ==> Hashed(r.hashes, Twin(b)))
    ensures CheckPowSortitionId(r, Twin(b)) == CheckPowSortitionId(r, b) && (ProvesContent(r, b) <==> ProvesContent(r, Twin(b)))
  {
    hide SortitionHash, Accepts;
    TwinContent(r.hashes, b.content.transactionRefs, b.content.proposerRefs);
    hide ContentHash;
  }

  /** A reference with the kind of block it must name. */
  datatype Reference = ToProposer(hash: Hash) | ToVoter(hash: Hash) | ToTransaction(hash: Hash)

  /** `contains_proposer`, `contains_voter` and `contains_transaction`; the last one cannot tell
      transaction blocks from others. */
  predicate Present(s: State, r: Reference) {
    match r
    case ToProposer(h) => h in s.db.proposers.level
    case ToVoter(h) => h in s.db.voters.level
    case ToTransaction(h) => h in s.db.parentOf
  }

  function ProposerRefs(hashes: seq<Hash>): (r: seq<Reference>) {
    seq(|hashes|, i requires 0 <= i < |hashes| => ToProposer(hashes[i]))
  }

  function TransactionRefs(hashes: seq<Hash>): (r: seq<Reference>) {
    seq(|hashes|, i requires 0 <= i < |hashes| => ToTransaction(hashes[i]))
  }

  /** Everything a block refers to, in the order in which it is looked up. */
  function References(b: Block): seq<Reference> {
    [ToProposer(b.header.parent)] +
    match b.content
    case Proposer(txRefs, refs) => TransactionRefs(txRefs) + ProposerRefs(refs)
    case Voter(_, parent, votes) => [ToVoter(parent)] + ProposerRefs(votes)
    case Transaction(_) => []
  }

  /** The hashes of the references that are not there, in order. */
  function Absent(s: State, refs: seq<Reference>): seq<Hash> {
    if refs == [] then []
    else Absent(s, Init(refs)) + if Present(s, Last(refs)) then [] else [Last(refs).hash]
  }

  lemma {:induction false} AbsentConcat(s: State, a: seq<Reference>, b: seq<Reference>)
    ensures Absent(s, a + b) == Absent(s, a) + Absent(s, b)
    decreases |b|
  {
    if b == [] {
      assert a + b == a;
    } else {
      assert Init(a + b) == a + Init(b) && Last(a + b) == Last(b);
      AbsentConcat(s, a, Init(b));
    }
  }

  lemma {:induction false} AbsentMember(s: State, refs: seq<Reference>, h: Hash)
    ensures h in Absent(s, refs) <==> exists r | r in refs :: !Present(s, r) && r.hash == h
  {
    if refs != [] {
      AbsentMember(s, Init(refs), h);
      assert refs == Init(refs) + [Last(refs)];
    }
  }

  /** The loops of `get_missing_references`. */
  method MissingProposers(s: State, hashes: seq<Hash>) returns (missing: seq<Hash>)
    ensures missing == Absent(s, ProposerRefs(hashes))
  {
    missing := [];
    for i := 0 to |hashes|
      invariant missing == Absent(s, ProposerRefs(hashes[..i]))
    {
      var refs := ProposerRefs(hashes[..i + 1]);
      assert Init(refs) == ProposerRefs(hashes[..i]) && Last(refs) == ToProposer(hashes[i]);
      if hashes[i] !in s.db.proposers.level {
        missing := missing + [hashes[i]];
      }
    }
    assert hashes[..|hashes|] == hashes;
  }

  method MissingTransactions(s: State, hashes: seq<Hash>) returns (missing: seq<Hash>)
    ensures missing == Absent(s, TransactionRefs(hashes))
  {
    missing := [];
    for i := 0 to |hashes|
      invariant missing == Absent(s, TransactionRefs(hashes[..i]))
    {
      var refs := TransactionRefs(hashes[..i + 1]);
      assert Init(refs) == TransactionRefs(hashes[..i]) && Last(refs) == ToTransaction(hashes[i]);
      if hashes[i] !in s.db.parentOf {
        missing := missing + [hashes[i]];
      }
    }
    assert hashes[..|hashes|] == hashes;
  }

  lemma AbsentOne(s: State, r: Reference)
    ensures Absent(s, [r]) == if Present(s, r) then [] else [r.hash]
  {
    assert Init([r]) == [] && Last([r]) == r && Absent(s, []) == [];
  }

  /** `check_data_availability`: exactly the absent references, in order. */
  method CheckDataAvailability(s: State, b: Block) returns (v: Verdict)
    ensures v == if Absent(s, References(b)) == [] then Pass else MissingReferences(Absent(s, References(b)))
  {
    hide Absent, Present, ProposerRefs, TransactionRefs;
    var missing := [];
    var parent := [ToProposer(b.header.parent)];
    AbsentOne(s, parent[0]);
    if !Present(s, parent[0]) {
      missing := [b.header.parent];
    }
    match b.content {
      case Proposer(txRefs, refs) =>
        var txs := MissingTransactions(s, txRefs);
        var proposers := MissingProposers(s, refs);
        AbsentConcat(s, TransactionRefs(txRefs), ProposerRefs(refs));
        AbsentConcat(s, parent, TransactionRefs(txRefs) + ProposerRefs(refs));
        missing := missing + (txs + proposers);
      case Voter(_, voterParent, votes) =>
        var voter := [];
        if !Present(s, ToVoter(voterParent)) {
          voter := [voterParent];
        }
        var proposers := MissingProposers(s, votes);
        AbsentOne(s, ToVoter(voterParent));
        AbsentConcat(s, [ToVoter(voterParent)], ProposerRefs(votes));
        AbsentConcat(s, parent, [ToVoter(voterParent)] + ProposerRefs(votes));
        missing := missing + (voter + proposers);
      case Transaction(_) =>
        assert parent + [] == parent;
    }
    v := if missing == [] then Pass else MissingReferences(missing);
  }

  /** `check_ref_proposer_level`; the level of every block it looks at must be known. */
  method CheckRefProposerLevel(s: State, parent: Hash, refs: seq<Hash>) returns (ok: bool)
    requires parent in s.db.proposers.level && forall r | r in refs :: r in s.db.proposers.level
    ensures ok <==> RefsBelow(s.db.proposers, parent, refs)
  {
    var levels := s.db.proposers.level;
    for i := 0 to |refs|
      invariant forall j | 0 <= j < i :: levels[refs[j]] <= levels[parent]
    {
      if levels[refs[i]] > levels[parent] {
        return false;
      }
    }
    return true;
  }

  /** `check_levels_voted`. */
  method CheckLevelsVoted(levels: map<Hash, nat>, deepest: nat, parent: Hash, votes: seq<Hash>) returns (ok: bool)
    requires parent in levels && forall p | p in votes :: p in levels
    ensures ok <==> CoversLevels(votes, levels, deepest, levels[parent])
  {
    var start, end := deepest, levels[parent];
    if start > end || |votes| != end - start {
      return false;
    }
    for i := 0 to |votes|
      invariant start == deepest + i
      invariant forall j | 0 <= j < i :: levels[votes[j]] == deepest + 1 + j
    {
      start := start + 1;
      if start != levels[votes[i]] {
        return false;
      }
    }
    return true;
  }

  /** All references are there, as `check_data_availability` found. */
  predicate Available(s: State, b: Block) {
    Absent(s, References(b)) == []
  }

  lemma AvailableRefs(s: State, b: Block, r: Reference)
    requires Available(s, b) && r in References(b)
    ensures Present(s, r)
  {
    AbsentMember(s, References(b), r.hash);
    assert r.hash in Absent(s, References(b)) || Present(s, r);
  }

  lemma AvailableProposers(s: State, b: Block, hashes: seq<Hash>)
    requires Available(s, b) && forall r | r in ProposerRefs(hashes) :: r in References(b)
    ensures forall h | h in hashes :: h in s.db.proposers.level
  {
    forall i | 0 <= i < |hashes|
      ensures hashes[i] in s.db.proposers.level
    {
      assert ToProposer(hashes[i]) == ProposerRefs(hashes)[i];
      AvailableRefs(s, b, ToProposer(hashes[i]));
    }
  }

  lemma AvailableTransactions(s: State, b: Block, hashes: seq<Hash>)
    requires Available(s, b) && forall r | r in TransactionRefs(hashes) :: r in References(b)
    ensures forall h | h in hashes :: h in s.db.parentOf
  {
    forall i | 0 <= i < |hashes|
      ensures hashes[i] in s.db.parentOf
    {
      assert ToTransaction(hashes[i]) == TransactionRefs(hashes)[i];
      AvailableRefs(s, b, ToTransaction(hashes[i]));
    }
  }

  /** What availability means for each kind of block. */
  lemma AvailableBlock(s: State, b: Block)
    requires Available(s, b)
    ensures b.header.parent in s.db.proposers.level
    ensures b.content.Proposer? ==> forall h | h in b.content.proposerRefs :: h in s.db.proposers.level
    ensures b.content.Proposer? ==> forall h | h in b.content.transactionRefs :: h in s.db.parentOf
    ensures b.content.Voter? ==> b.content.voterParent in s.db.voters.level
    ensures b.content.Voter? ==> forall h | h in b.content.votes :: h in s.db.proposers.level
  {
    hide Available;
    assert References(b)[0] == ToProposer(b.header.parent);
    AvailableRefs(s, b, ToProposer(b.header.parent));
    match b.content {
      case Proposer(txRefs, refs) =>
        AvailableProposers(s, b, refs);
        AvailableTransactions(s, b, txRefs);
      case Voter(_, parent, votes) =>
        assert References(b)[1] == ToVoter(parent);
        AvailableRefs(s, b, ToVoter(parent));
        AvailableProposers(s, b, votes);
      case Transaction(_) =>
    }
  }

  /** What `check_chain_number` refuses. */
  predicate WrongChain(s: State, content: Content)
    requires content.Voter?
  {
    content.voterParent in s.db.voters.chain && s.db.voters.chain[content.voterParent] != content.chainNumber
  }

  /** `check_content_semantic` on a block whose references are there. */
  method CheckContentSemantic(r: Rules, s: State, b: Block) returns (v: Verdict)
    requires Linked(s.db.voters) && Available(s, b)
    ensures v == Pass <==> Acceptable(s, b) && Signed(r, b)
    ensures v in {Pass, WrongProposerRef, WrongChainNumber, WrongVoteLevel, WrongSignature}
    ensures v == WrongProposerRef ==> b.content.Proposer? && !RefsBelow(s.db.proposers, b.header.parent, b.content.proposerRefs)
    ensures v == WrongChainNumber <==> b.content.Voter? && WrongChain(s, b.content)
    ensures v == WrongVoteLevel ==> b.content.Voter?
    ensures v == WrongSignature ==> b.content.Transaction?
  {
    hide CoversLevels, Available;
    AvailableBlock(s, b);
    v := Pass;
    match b.content {
      case Proposer(_, refs) =>
        var ok := CheckRefProposerLevel(s, b.header.parent, refs);
        if !ok {
          v := WrongProposerRef;
        }
      case Voter(chain, parent, votes) =>
        if s.db.voters.chain[parent] != chain {
          return WrongChainNumber;
        }
        var ok := CheckLevelsVoted(s.db.proposers.level, s.db.voters.votedLevel[parent], b.header.parent, votes);
        if !ok {
          v := WrongVoteLevel;
        }
      case Transaction(transactions) =>
        if !r.signed(transactions) {
          v := WrongSignature;
        }
    }
  }

  predicate Signed(r: Rules, b: Block) {
    b.content.Transaction? ==> r.signed(b.content.transactions)
  }
}
