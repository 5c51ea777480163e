/** One iteration of `miner_loop` and `produce_block`, src/miner/mod.rs. */
module Miner {
  import opened Prelude
  import opened Blocks
  import opened BlockHashes
  import opened ProposerGraph
  import opened VoteLevels
  import opened ChainState
  import opened ChainReads
  import opened Chain
  import opened Validation
  import opened Growth
  import opened Sortition
  import opened MerkleSpec
  import opened MinerContents

  /** What the other threads told the miner, and what it draws itself. */
  datatype Signals = Signals(
    newProposer: bool, newTransaction: bool, newVoters: seq<nat>, transactions: seq<nat>,
    difficultyOf: Hash -> nat, nonce: nat, timestamp: nat, extraContent: nat)

  /** The leaves are the hashes of the contents. */
  ghost predicate TreeOf(tree: Merkle.MerkleTree, rules: Rules, contents: seq<Content>)
    reads tree
  {
    tree.Valid() && tree.f == rules.hashes.pair && tree.leaves == Merkle.HashAll(Hasher(rules.hashes), contents)
  }

  class MinerContext {
    const chain: BlockChain
    const rules: Rules
    const quota: nat                 // `proposer_tx_refs`
    var header: Header
    var contents: seq<Content>
    var tree: Merkle.MerkleTree

    /** Holds between iterations, and while other threads insert into the chain. */
    ghost predicate Valid()
      reads this, chain, tree
    {
      && chain.Valid() && rules.widths.Valid() && rules.widths.voterChains == |chain.config.voterGenesis|
      && Layout(contents, rules.widths.voterChains) && Ready(chain.View(), header.parent, contents)
      && TreeOf(tree, rules, contents)
    }

    /** `new`. */
    constructor (chain: BlockChain, rules: Rules, quota: nat, timestamp: nat, difficulty: nat)
      requires chain.Valid() && rules.widths.Valid() && rules.widths.voterChains == |chain.config.voterGenesis|
      ensures Valid() && this.chain == chain && fresh(tree)
      ensures header.parent == chain.config.proposerGenesis && contents == FirstContents(chain.config.voterGenesis)
    {
      hide ValidState, Layout, Ready;
      this.chain, this.rules, this.quota := chain, rules, quota;
      header := Header(chain.config.proposerGenesis, timestamp, 0, Merkle.ZERO_HASH, 0, difficulty);
      var first := FirstContents(chain.config.voterGenesis);
      contents := first;
      tree := new Merkle.MerkleTree(rules.hashes.pair, Hasher(rules.hashes), first);
      FirstIsReady(chain.config, chain.View());
    }

    /** Refresh the candidates, their tree and the header. Afterwards the parent is the best
        proposer and the header commits to exactly these candidates. */
    method Refresh(signals: Signals)
      requires Valid() && forall k | k in signals.newVoters :: k < rules.widths.voterChains
      modifies this, tree
      ensures Valid() && (fresh(tree) || tree == old(tree))
      ensures chain.db.proposers.level[header.parent] == chain.proposerBestLevel
      ensures header.contentMerkleRoot == MerkleSpec.Root(rules.hashes.pair, Merkle.HashAll(Hasher(rules.hashes), contents))
      ensures header.difficulty == signals.difficultyOf(header.parent)
      ensures header.nonce == signals.nonce && header.timestamp == signals.timestamp && header.extraContent == signals.extraContent
      ensures |contents| == |old(contents)| >= FIRST_VOTER_INDEX
      ensures Refreshed(chain.View(), old(header.parent), header.parent, old(contents), contents, signals, quota)
    {
      hide ValidState, Layout, Ready, OnlyTouched, TreeOf, Root, Merkle.HashAll, Refreshed;
      var parent, contents', touched, rebuild := Candidates(chain.config, chain.View(), header.parent, contents, signals, quota);
      LayoutSize(contents, rules.widths.voterChains);
      LayoutSize(contents', rules.widths.voterChains);
      var newTree, root := RefreshTree(tree, rules, contents, contents', touched, rebuild);
      tree, contents := newTree, contents';
      header := Header(parent, signals.timestamp, signals.nonce, root, signals.extraContent, signals.difficultyOf(parent));
    }

    /** `produce_block`: the block passes every check, by this node and by any peer that agrees on
        the blocks it refers to. */
    method ProduceBlock(headerHash: Hash) returns (b: Block)
      requires Valid() && SortitionHash(rules.widths, headerHash, header.difficulty).Mined?
      requires header.contentMerkleRoot == MerkleSpec.Root(rules.hashes.pair, Merkle.HashAll(Hasher(rules.hashes), contents))
      ensures b.hash == headerHash && b.header == header
      ensures CheckPowSortitionId(rules, b) == Pass && ProvesContent(rules, b)
      ensures Available(chain.View(), b) && Acceptable(chain.View(), b)
      ensures forall peer :: AgreeOn(chain.View(), peer, b) ==> Available(peer, b) && Acceptable(peer, b)
    {
      hide ValidState, Layout, Ready, AgreeOn, SortitionHash, Available, Acceptable, Accepts, ProofOf, Root, Nodes, DataSizes;
      var id := SortitionHash(rules.widths, headerHash, header.difficulty).id;
      IdInRange(rules.widths, headerHash, header.difficulty);
      LayoutSize(contents, rules.widths.voterChains);
      var proof := tree.Proof(id);
      b := Block(headerHash, header, contents[id], proof);
      LayoutIds(contents, rules.widths.voterChains, id);
      ProofIsAccepted(rules.hashes.pair, tree.leaves, id);
      ReadyBlock(chain.View(), header.parent, contents, id, b);
      forall peer | AgreeOn(chain.View(), peer, b)
        ensures Available(peer, b) && Acceptable(peer, b)
      {
        PeersDecideAlike(chain.View(), peer, b);
      }
    }

    /** The end of an iteration. Unless the sum of the widths overflows, a header hash below the
        difficulty always makes a block, which can go into the chain without validation. */
    method TryHeader() returns (mined: Option<Block>)
      requires Valid()
      requires header.contentMerkleRoot == MerkleSpec.Root(rules.hashes.pair, Merkle.HashAll(Hasher(rules.hashes), contents))
      requires var hash := rules.hashes.header(header);
               && hash !in Known(chain.config, chain.View())
               && (hash < ProposerEnd(rules.widths, header.difficulty) || VoterStart(rules.widths, header.difficulty) < TWO_256)
      modifies chain
      ensures Valid() && (mined.Some? <==> rules.hashes.header(header) < header.difficulty)
      ensures mined.None? ==> chain.View() == old(chain.View())
      ensures mined.Some? ==>
                && Hashed(rules.hashes, mined.value) && mined.value.header == header
                && CheckPowSortitionId(rules, mined.value) == Pass && ProvesContent(rules, mined.value)
                && Available(old(chain.View()), mined.value) && Acceptable(old(chain.View()), mined.value)
                && chain.View() == Inserted(old(chain.View()), mined.value)
    {
      hide ValidState, Layout, Ready, SortitionHash, Available, Acceptable, ProvesContent, CheckPowSortitionId, Inserted, Known, ProposerEnd,
        VoterStart, AgreeOn, Root;
      mined := None;
      var headerHash := rules.hashes.header(header);
      if headerHash < header.difficulty {
        MinedUnlessOverflow(rules.widths, headerHash, header.difficulty);
        var b := ProduceBlock(headerHash);
        InsertGrows(chain.config, chain.View(), b);
        ReadyStable(chain.View(), Inserted(chain.View(), b), header.parent, contents);
        chain.InsertBlock(b);
        mined := Some(b);
      }
    }
  }

  lemma LayoutSize(contents: seq<Content>, chains: nat)
    requires Layout(contents, chains)
    ensures |contents| == chains + FIRST_VOTER_INDEX
  {
  }

  /** The candidates of one iteration and the indices that changed. */
  method Candidates(c: Config, s: State, before: Hash, contents: seq<Content>, signals: Signals, quota: nat)
    returns (parent: Hash, contents': seq<Content>, touched: set<nat>, rebuild: bool)
    requires ValidState(c, s) && Layout(contents, |c.voterGenesis|) && Ready(s, before, contents)
    requires forall k | k in signals.newVoters :: k < |c.voterGenesis|
    ensures parent in s.db.proposers.level && s.db.proposers.level[parent] == s.proposerBestLevel
    ensures Layout(contents', |c.voterGenesis|) && Ready(s, parent, contents') && OnlyTouched(contents, contents', touched)
    ensures Refreshed(s, before, parent, contents, contents', signals, quota)
  {
    hide ValidState, ParentKnown, VotesFit, RefsFit, OnlyTouched, FirstOfBest, FreshRefs, Oldest, VoteIsBest, MovedToBest, VotersRefreshed;
    ReadyParents(s, before, contents);
    contents', touched := UpdateVoterParents(c, s, contents, signals.newVoters);
    ghost var moved := contents';
    assert moved[PROPOSER_INDEX] == contents[PROPOSER_INDEX] && moved[TRANSACTION_INDEX] == contents[TRANSACTION_INDEX];
    contents', touched := TransactionCandidate(c, s, before, contents', touched, signals, quota, contents);
    contents', touched, parent, rebuild := ProposerCandidate(c, s, before, contents', touched, signals.newProposer, quota, contents);
    ghost var refreshed := contents';
    if rebuild {
      contents', touched := UpdateVotes(c, s, parent, contents', touched, true, contents);
      ParentsCarryOver(moved, refreshed, contents', |c.voterGenesis|);
      RevotedVoters(s, parent, contents, moved, contents', signals.newVoters, |c.voterGenesis|);
    } else if signals.newVoters != [] {
      contents', touched := UpdateVotes(c, s, parent, contents', touched, false, contents);
      ParentsCarryOver(moved, refreshed, contents', |c.voterGenesis|);
      RevotedVoters(s, parent, contents, moved, contents', signals.newVoters, |c.voterGenesis|);
    } else {
      StillReady(s, parent, contents, contents', |c.voterGenesis|);
      SameVotersRefreshed(s, parent, contents, contents', |c.voterGenesis|);
    }
    assert contents'[PROPOSER_INDEX] == refreshed[PROPOSER_INDEX] && contents'[TRANSACTION_INDEX] == refreshed[TRANSACTION_INDEX];
  }

  lemma RevotedVoters(s: State, parent: Hash, contents: seq<Content>, moved: seq<Content>, contents': seq<Content>, chains: seq<nat>, n: nat)
    requires Layout(contents, n) && Layout(moved, n) && Layout(contents', n)
    requires MovedToBest(s, contents, moved, chains) && SameParents(moved, contents') && VotesAreBest(s, parent, contents')
    ensures VotersRefreshed(s, parent, contents, contents', chains, true)
  {
    hide VoteIsBest;
    forall k: nat | k + FIRST_VOTER_INDEX < |contents|
      ensures VoterRefreshed(s, parent, contents, contents', chains, true, k)
    {
      assert MovedOne(s, contents, moved, chains, k);
      assert VoteIsBest(s, parent, contents'[k + FIRST_VOTER_INDEX]);
    }
  }

  lemma SameVotersRefreshed(s: State, parent: Hash, contents: seq<Content>, contents': seq<Content>, n: nat)
    requires Layout(contents, n) && Layout(contents', n) && SameVoters(contents, contents')
    ensures VotersRefreshed(s, parent, contents, contents', [], false)
  {
  }

  lemma ParentsCarryOver(a: seq<Content>, b: seq<Content>, c: seq<Content>, n: nat)
    requires Layout(a, n) && Layout(b, n) && SameVoters(a, b) && SameParents(b, c)
    ensures SameParents(a, c)
  {
  }

  /** What one iteration makes of the candidates, depending on the signals. */
  ghost predicate Refreshed(s: State, before: Hash, parent: Hash, contents: seq<Content>, contents': seq<Content>, signals: Signals,
                            quota: nat)
    requires |contents| == |contents'| >= FIRST_VOTER_INDEX
  {
    && FirstOfBest(s, parent)
    && TransactionsTaken(contents, contents', signals)
    && ProposerRefreshed(s, before, parent, contents[PROPOSER_INDEX], contents'[PROPOSER_INDEX], signals, quota)
    && VotersRefreshed(s, parent, contents, contents', signals.newVoters, signals.newProposer || parent != before || signals.newVoters != [])
  }

  /** The proposer candidate: all references are fresh if there is a new parent or proposer block;
      otherwise after a new transaction block the transaction references are, if there is room;
      otherwise nothing changes. */
  ghost predicate ProposerRefreshed(s: State, before: Hash, parent: Hash, content: Content, content': Content, signals: Signals, quota: nat) {
    && content.Proposer? && content'.Proposer?
    && if signals.newProposer || parent != before then FreshRefs(s, parent, quota, content')
       else if signals.newTransaction && |content.transactionRefs| < quota then
         content'.proposerRefs == content.proposerRefs && Oldest(s.unreferredTransactions, content'.transactionRefs, quota)
       else content' == content
  }

  ghost predicate VotersRefreshed(s: State, parent: Hash, contents: seq<Content>, contents': seq<Content>, announced: seq<nat>, revote: bool)
    requires |contents| == |contents'|
  {
    forall k: nat | k + FIRST_VOTER_INDEX < |contents| :: VoterRefreshed(s, parent, contents, contents', announced, revote, k)
  }

  /** The candidate of a voter chain: on the best block of the chain if it was announced, on the old
      parent otherwise; with the best votes if anything calls for them, and the old votes
      otherwise. */
  ghost predicate VoterRefreshed(s: State, parent: Hash, contents: seq<Content>, contents': seq<Content>, announced: seq<nat>, revote: bool,
                                 k: nat)
    requires k + FIRST_VOTER_INDEX < |contents| == |contents'|
  {
    var content, content' := contents[k + FIRST_VOTER_INDEX], contents'[k + FIRST_VOTER_INDEX];
    && content.Voter? && content'.Voter? && content'.chainNumber == content.chainNumber
    && (if k in announced then k < |s.voterBest| && content'.voterParent == s.voterBest[k].0 else content'.voterParent == content.voterParent)
    && if revote then VoteIsBest(s, parent, content') else content'.votes == content.votes
  }

  lemma ReadyParents(s: State, parent: Hash, contents: seq<Content>)
    requires Ready(s, parent, contents)
    ensures ParentsKnown(s.db.voters, contents)
  {
    hide CoversLevels, RefsBelow;
  }

  /** The voter candidates did not change, and the proposer candidate fits. */
  lemma StillReady(s: State, parent: Hash, contents: seq<Content>, contents': seq<Content>, chains: nat)
    requires Layout(contents, chains) && Layout(contents', chains) && Ready(s, parent, contents)
    requires SameVoters(contents, contents') && RefsFit(s, parent, contents'[PROPOSER_INDEX])
    ensures Ready(s, parent, contents')
  {
    hide ParentKnown, VotesFit, RefsFit;
    AllReady(s, parent, contents', chains);
  }

  ghost predicate TransactionsTaken(contents: seq<Content>, contents': seq<Content>, signals: Signals)
    requires |contents| > TRANSACTION_INDEX && |contents'| > TRANSACTION_INDEX
  {
    contents'[TRANSACTION_INDEX] ==
      if signals.newTransaction then Content.Transaction(signals.transactions) else contents[TRANSACTION_INDEX]
  }

  /** New transactions for the transaction candidate. If no new proposer block will do it anyway,
      refresh the transaction references too, unless there are enough. */
  method TransactionCandidate(c: Config, s: State, parent: Hash, contents: seq<Content>, touched: set<nat>, signals: Signals, quota: nat,
                              ghost before: seq<Content>)
    returns (contents': seq<Content>, touched': set<nat>)
    requires ValidState(c, s) && Layout(contents, |c.voterGenesis|) && ParentsKnown(s.db.voters, contents)
    requires OnlyTouched(before, contents, touched) && RefsFit(s, parent, contents[PROPOSER_INDEX])
    ensures Layout(contents', |c.voterGenesis|) && ParentsKnown(s.db.voters, contents') && SameVoters(contents, contents')
    ensures OnlyTouched(before, contents', touched') && RefsFit(s, parent, contents'[PROPOSER_INDEX])
    ensures TransactionsTaken(contents, contents', signals)
    ensures var refs, refs' := contents[PROPOSER_INDEX], contents'[PROPOSER_INDEX];
            if signals.newTransaction && !signals.newProposer && |refs.transactionRefs| < quota
            then refs' == refs.(transactionRefs := refs'.transactionRefs) && Oldest(s.unreferredTransactions, refs'.transactionRefs, quota)
            else refs' == refs
  {
    hide ValidState, RefsBelow, Oldest;
    contents', touched' := contents, touched;
    if signals.newTransaction {
      contents' := contents'[TRANSACTION_INDEX := Content.Transaction(signals.transactions)];
      touched' := touched' + {TRANSACTION_INDEX};
      if !signals.newProposer && |contents'[PROPOSER_INDEX].transactionRefs| < quota {
        var refs := RefreshTransactionRefs(c, s, quota);
        contents' := contents'[PROPOSER_INDEX := contents'[PROPOSER_INDEX].(transactionRefs := refs)];
        touched' := touched' + {PROPOSER_INDEX};
      }
    }
  }

  /** Follow the best proposer block; refresh the proposer candidate whenever it changed. */
  method ProposerCandidate(c: Config, s: State, before: Hash, contents: seq<Content>, touched: set<nat>, newProposer: bool, quota: nat,
                           ghost first: seq<Content>)
    returns (contents': seq<Content>, touched': set<nat>, parent: Hash, rebuild: bool)
    requires ValidState(c, s) && Layout(contents, |c.voterGenesis|) && ParentsKnown(s.db.voters, contents)
    requires OnlyTouched(first, contents, touched) && RefsFit(s, before, contents[PROPOSER_INDEX])
    ensures Layout(contents', |c.voterGenesis|) && ParentsKnown(s.db.voters, contents') && SameVoters(contents, contents')
    ensures OnlyTouched(first, contents', touched') && RefsFit(s, parent, contents'[PROPOSER_INDEX])
    ensures parent in s.db.proposers.level && s.db.proposers.level[parent] == s.proposerBestLevel
    ensures FirstOfBest(s, parent)
    ensures contents'[TRANSACTION_INDEX] == contents[TRANSACTION_INDEX] && (rebuild <==> newProposer || parent != before)
    ensures if rebuild then FreshRefs(s, parent, quota, contents'[PROPOSER_INDEX]) else parent == before && contents' == contents
  {
    hide ValidState, RefsFit, FreshRefs;
    contents', touched', parent, rebuild := contents, touched, before, newProposer;
    if rebuild {
      parent := BestProposer(c, s);
    }
    while true
      invariant Layout(contents', |c.voterGenesis|) && ParentsKnown(s.db.voters, contents') && SameVoters(contents, contents')
      invariant OnlyTouched(first, contents', touched') && contents'[TRANSACTION_INDEX] == contents[TRANSACTION_INDEX]
      invariant rebuild <==> newProposer || parent != before
      invariant if rebuild then parent in s.db.proposers.level && s.db.proposers.level[parent] == s.proposerBestLevel && FirstOfBest(s, parent)
                else parent == before && contents' == contents
      decreases !rebuild
    {
      if rebuild {
        var content := RefreshRefs(c, s, parent, quota);
        contents', touched' := contents'[PROPOSER_INDEX := content], touched' + {PROPOSER_INDEX};
      }
      var best := BestProposer(c, s);
      if parent == best {
        break;
      }
      rebuild, parent := true, best;
    }
  }

  /** Rebuild the tree, or update the touched leaves one by one: either way it is the tree of the
      new contents. */
  method RefreshTree(tree: Merkle.MerkleTree, rules: Rules, ghost contents: seq<Content>, contents': seq<Content>, touched: set<nat>,
                     rebuild: bool)
    returns (tree': Merkle.MerkleTree, root: Hash)
    requires TreeOf(tree, rules, contents) && OnlyTouched(contents, contents', touched) && contents' != []
    modifies tree
    ensures TreeOf(tree', rules, contents') && (fresh(tree') || tree' == tree)
    ensures root == MerkleSpec.Root(rules.hashes.pair, Merkle.HashAll(Hasher(rules.hashes), contents'))
  {
    hide Root, Nodes, DataSizes;
    tree' := tree;
    if rebuild {
      tree' := new Merkle.MerkleTree(rules.hashes.pair, Hasher(rules.hashes), contents');
    } else {
      UpdateTree(tree, rules, contents, contents', touched);
    }
    root := tree'.Root();
  }

  method UpdateTree(tree: Merkle.MerkleTree, rules: Rules, ghost contents: seq<Content>, contents': seq<Content>, touched: set<nat>)
    requires TreeOf(tree, rules, contents) && OnlyTouched(contents, contents', touched)
    modifies tree
    ensures TreeOf(tree, rules, contents')
  {
    hide Nodes, DataSizes;
    var rest := touched;
    while rest != {}
      invariant rest <= touched && tree.Valid() && |tree.leaves| == |contents'|
      invariant forall i: nat | i < |contents'| && i !in rest :: tree.leaves[i] == ContentHash(rules.hashes, contents'[i])
      decreases rest
    {
      var id :| id in rest;
      tree.Update(Hasher(rules.hashes), id, contents'[id]);
      rest := rest - {id};
    }
    assert tree.leaves == Merkle.HashAll(Hasher(rules.hashes), contents');
  }

  /** A candidate that is ready makes a block that is available and acceptable. */
  lemma ReadyBlock(s: State, parent: Hash, contents: seq<Content>, id: nat, b: Block)
    requires Ready(s, parent, contents) && id < |contents| && b.content == contents[id] && b.header.parent == parent
    ensures Available(s, b) && Acceptable(s, b)
  {
    hide Absent, RefsBelow, CoversLevels;
    assert VotesFit(s, parent, contents[id]) && RefsFit(s, parent, contents[id]);
    ReadyRefs(s, parent, contents[id], b);
    NothingAbsent(s, References(b));
  }

  lemma ReadyRefs(s: State, parent: Hash, content: Content, b: Block)
    requires parent in s.db.proposers.level && VotesFit(s, parent, content) && RefsFit(s, parent, content)
    requires b.content == content && b.header.parent == parent
    ensures forall r | r in References(b) :: Present(s, r)
  {
    forall r | r in References(b)
      ensures Present(s, r)
    {
      match content {
        case Proposer(txRefs, refs) =>
          assert r == ToProposer(parent) || r in TransactionRefs(txRefs) || r in ProposerRefs(refs);
        case Voter(_, voterParent, votes) =>
          assert r == ToProposer(parent) || r == ToVoter(voterParent) || r in ProposerRefs(votes);
        case Transaction(_) =>
          assert r == ToProposer(parent);
      }
    }
  }
}
