/** The state of `BlockChain`, src/blockchain/mod.rs, and what `insert_block` does to it. */
module ChainState {
  import opened Prelude
  import opened Blocks
  import opened LedgerSpec
  import opened LedgerUpdate
  import opened ProposerGraph
  import opened VoterTrees
  import opened VoteLevels
  import opened VoteIndex
  import opened VoterForest
  import opened VoteTally
  import opened ElectionSpec
  import opened LeaderUpdate
  import opened ChainSteps

  /** `BlockchainConfig`, as far as the chain uses it. */
  datatype Config = Config(proposerGenesis: Hash, voterGenesis: seq<Hash>, estimator: Estimator, confirm: real, deconfirm: real)

  /** Genesis hashes are distinct, `voter_chains * 3` fits 16 bits, and deconfirming takes the
      smaller quantile. */
  ghost predicate ValidConfig(c: Config) {
    && 1 <= |c.voterGenesis| <= 21845
    && NoDup(c.voterGenesis) && c.proposerGenesis !in c.voterGenesis
    && ValidEstimator(c.estimator) && 0.0 <= c.deconfirm <= c.confirm
  }

  /** Every voter chain starts at its configured genesis block. */
  ghost predicate PlantedAt(v: Voters, genesis: seq<Hash>)
    requires Linked(v)
  {
    forall c | 0 <= c < |genesis| :: BestOfChain(v, (genesis[c], 0), c)
  }

  /** PARENT_NEIGHBOR knows every block but the proposer genesis; no hash is used twice. */
  ghost predicate Registered(parentOf: map<Hash, Hash>, g: Proposers, v: Voters, genesis: Hash) {
    && genesis !in parentOf
    && (forall h | h in g.level && h != genesis :: h in parentOf)
    && (forall h | h in v.level :: h in parentOf)
    && forall h | h in g.level :: h !in v.level
  }

  /** The recorded parent is a proposer block: the first reference of a proposer block, and the
      block up to whose level a voter block votes. */
  ghost predicate ParentsExact(parentOf: map<Hash, Hash>, g: Proposers, v: Voters, genesis: Hash) {
    && (forall h | h in parentOf :: parentOf[h] in g.level)
    && (forall h | h in g.level && h != genesis :: FirstRefIsParent(parentOf, g, h))
    && forall h | h in v.level :: VotesUpToParent(parentOf, g, v, h)
  }

  ghost predicate FirstRefIsParent(parentOf: map<Hash, Hash>, g: Proposers, h: Hash) {
    h in parentOf && h in g.refs && g.refs[h] != [] && g.refs[h][0] == parentOf[h]
  }

  ghost predicate VotesUpToParent(parentOf: map<Hash, Hash>, g: Proposers, v: Voters, h: Hash) {
    h in parentOf && parentOf[h] in g.level && h in v.votedLevel && v.votedLevel[h] == g.level[parentOf[h]]
  }

  /** A transaction block is listed as unreferred exactly if no proposer block refers to it; and
      references are to registered blocks. */
  ghost predicate TransactionsExact(unreferred: set<Hash>, registered: set<Hash>, g: Proposers, v: Voters) {
    && (forall q | q in g.txRefs :: RefsRegistered(g.txRefs[q], registered))
    && forall h: Hash :: h in unreferred <==> h in registered && h !in g.level && h !in v.level && NotReferred(g, h)
  }

  ghost predicate RefsRegistered(refs: seq<Hash>, registered: set<Hash>) {
    forall t | t in refs :: t in registered
  }

  ghost predicate NotReferred(g: Proposers, h: Hash) {
    forall q | q in g.txRefs :: h !in g.txRefs[q]
  }

  ghost predicate VotersOk(v: Voters, levels: map<Hash, nat>, best: seq<(Hash, nat)>, genesis: seq<Hash>, count: map<Hash, nat>) {
    && ForestOk(v, levels, best) && |best| == |genesis|
    && PlantedAt(v, genesis) && VoteCountsExact(v, count)
  }

  ghost predicate IndexOk(index: map<Hash, seq<Vote>>, v: Voters, tips: seq<Hash>, chains: nat)
    requires Linked(v)
  {
    |tips| == chains && TipsOk(v, tips) && IndexExact(index, v, tips)
  }

  /** The column families. */
  datatype Database = Database(
    proposers: Proposers,
    voters: Voters,
    voteIndex: map<Hash, seq<Vote>>,       // PROPOSER_NODE_VOTE
    voteCount: map<Hash, nat>,             // PROPOSER_VOTE_COUNT
    leaders: map<nat, Hash>,               // PROPOSER_LEADER_SEQUENCE
    ledgerOrder: map<nat, seq<Hash>>,      // PROPOSER_LEDGER_ORDER
    parentOf: map<Hash, Hash>)             // PARENT_NEIGHBOR

  /** The database and the fields behind mutexes at one moment. */
  datatype State = State(
    db: Database,
    proposerBestLevel: nat,
    voterBest: seq<(Hash, nat)>,
    unreferredTransactions: map<Hash, nat>,
    unreferredProposers: map<Hash, nat>,
    unconfirmed: set<Hash>,
    ledgerTip: nat,
    voterLedgerTips: seq<Hash>)

  /** What holds of the chain between any two calls. */
  ghost predicate ValidState(c: Config, s: State) {
    && ValidConfig(c)
    && GraphOk(s.db.proposers, c.proposerGenesis, s.proposerBestLevel)
    && UnreferredExact(s.db.proposers, s.unreferredProposers.Keys)
    && VotersOk(s.db.voters, s.db.proposers.level, s.voterBest, c.voterGenesis, s.db.voteCount)
    && IndexOk(s.db.voteIndex, s.db.voters, s.voterLedgerTips, |c.voterGenesis|)
    && LedgerOk(s.db.proposers, s.db.leaders, s.db.ledgerOrder, s.unconfirmed, s.ledgerTip)
    && Registered(s.db.parentOf, s.db.proposers, s.db.voters, c.proposerGenesis)
    && ParentsExact(s.db.parentOf, s.db.proposers, s.db.voters, c.proposerGenesis)
    && TransactionsExact(s.unreferredTransactions.Keys, s.db.parentOf.Keys, s.db.proposers, s.db.voters)
  }

  /** The confirmed proposer blocks in ledger order. By validity these are the stored levels,
      one after the other. */
  ghost function Confirmed(c: Config, s: State): seq<Hash>
    requires ValidState(c, s)
  {
    Flatten(Ledger(s.db.proposers, s.db.leaders, s.ledgerTip + 1))
  }

  lemma ConfirmedHaveTransactions(c: Config, s: State)
    requires ValidState(c, s)
    ensures forall x | x in Confirmed(c, s) :: x in s.db.proposers.txRefs
  {
    hide UnreferredExact, VotersOk, IndexOk, LedgerOk, Registered, ParentsExact, TransactionsExact, LevelsListed, BestLevel, ValidConfig,
      Ledger, Flatten, Acyclic;
    ConfirmedAreKnown(s.db.proposers, s.db.leaders, s.db.ledgerOrder, s.unconfirmed, s.ledgerTip);
  }

  lemma ConfirmedAreKnown(g: Proposers, leaders: map<nat, Hash>, order: map<nat, seq<Hash>>, unconfirmed: set<Hash>, tip: nat)
    requires Acyclic(g) && LedgerOk(g, leaders, order, unconfirmed, tip)
    ensures Led(g, leaders, tip + 1)
    ensures forall x | x in Flatten(Ledger(g, leaders, tip + 1)) :: x in g.level.Keys
  {
    hide Ledger, Flatten, Acyclic, Led, LeadersInPlace;
    StoredIsLed(g, leaders, order, unconfirmed, tip + 1);
    LedgerHasNoDup(g, leaders, tip + 1);
  }

  /** The transaction blocks of the ledger in order. */
  ghost function TransactionLedger(c: Config, s: State): seq<Hash>
    requires ValidState(c, s)
  {
    ConfirmedHaveTransactions(c, s);
    TransactionsOf(s.db.proposers, Confirmed(c, s))
  }

  /** The hashes of all blocks in the chain. */
  function Known(c: Config, s: State): set<Hash> {
    s.db.parentOf.Keys + {c.proposerGenesis}
  }

  /** What `check_data_availability` and `check_content_semantic` establish of a block. */
  ghost predicate Acceptable(s: State, b: Block) {
    && b.header.parent in s.db.proposers.level
    && match b.content
       case Proposer(txRefs, refs) =>
         && RefsBelow(s.db.proposers, b.header.parent, refs)
         && forall t | t in txRefs :: t in s.db.parentOf
       case Voter(chain, parent, votes) =>
         && parent in s.db.voters.level && parent in s.db.voters.chain && parent in s.db.voters.votedLevel
         && chain == s.db.voters.chain[parent]
         && CoversLevels(votes, s.db.proposers.level, s.db.voters.votedLevel[parent], s.db.proposers.level[b.header.parent])
       case Transaction(_) => true
  }

  /** The state after `insert_block`. */
  ghost function Inserted(s: State, b: Block): State
    requires Acceptable(s, b)
  {
    var registered := s.(db := s.db.(parentOf := s.db.parentOf[b.hash := b.header.parent]));
    match b.content
    case Proposer(txRefs, refs) => WithProposer(registered, b.hash, b.header, txRefs, refs)
    case Voter(_, parent, votes) => WithVoter(registered, b.hash, b.header, parent, votes)
    case Transaction(_) =>
      registered.(unreferredTransactions := s.unreferredTransactions[b.hash := b.header.timestamp])
  }

  ghost function WithProposer(s: State, h: Hash, header: Header, txRefs: seq<Hash>, refs: seq<Hash>): State
    requires header.parent in s.db.proposers.level
  {
    var level := s.db.proposers.level[header.parent] + 1;
    s.(db := s.db.(proposers := AddProposer(s.db.proposers, h, header.parent, refs, txRefs)),
       proposerBestLevel := if level > s.proposerBestLevel then level else s.proposerBestLevel,
       unreferredTransactions := s.unreferredTransactions - Elements(txRefs),
       unreferredProposers := s.unreferredProposers[h := header.timestamp] - Elements(refs) - {header.parent},
       unconfirmed := s.unconfirmed + {h})
  }

  ghost function WithVoter(s: State, h: Hash, header: Header, parent: Hash, votes: seq<Hash>): State
    requires header.parent in s.db.proposers.level && parent in s.db.voters.level && parent in s.db.voters.chain
  {
    var level, chain := s.db.voters.level[parent] + 1, s.db.voters.chain[parent];
    s.(db := s.db.(voters := AddVoter(s.db.voters, h, parent, votes, s.db.proposers.level[header.parent]),
                   voteCount := AddCounts(s.db.voteCount, votes)),
       voterBest := if chain < |s.voterBest| then UpdateBest(s.voterBest, chain, h, level) else s.voterBest)
  }

  /** One merge of 1 for every vote. */
  method CountVotes(count: map<Hash, nat>, votes: seq<Hash>) returns (count': map<Hash, nat>)
    ensures count' == AddCounts(count, votes)
  {
    count' := count;
    for i := 0 to |votes|
      invariant count' == AddCounts(count, votes[..i])
    {
      assert Init(votes[..i + 1]) == votes[..i] && Last(votes[..i + 1]) == votes[i];
      count' := count'[votes[i] := CountOf(count', votes[i]) + 1];
    }
    assert votes[..|votes|] == votes;
  }

  /** Inserting an acceptable block keeps everything, and leaves the ledger as it is. */
  lemma InsertKeepsValid(c: Config, s: State, b: Block)
    requires ValidState(c, s) && b.hash !in Known(c, s) && Acceptable(s, b)
    ensures b.content.Voter? ==> s.db.voters.chain[b.content.voterParent] < |s.voterBest|
    ensures ValidState(c, Inserted(s, b))
    ensures Confirmed(c, Inserted(s, b)) == Confirmed(c, s) && TransactionLedger(c, Inserted(s, b)) == TransactionLedger(c, s)
  {
    hide AddProposer, AddVoter;
    match b.content {
      case Proposer(txRefs, refs) => ProposerKeepsValid(c, s, b, txRefs, refs);
      case Voter(_, parent, votes) => VoterKeepsValid(c, s, b, parent, votes);
      case Transaction(_) => TransactionKeepsValid(c, s, b);
    }
  }

  lemma ProposerKeepsValid(c: Config, s: State, b: Block, txRefs: seq<Hash>, refs: seq<Hash>)
    requires ValidState(c, s) && b.hash !in Known(c, s) && Acceptable(s, b) && b.content == Content.Proposer(txRefs, refs)
    ensures ValidState(c, Inserted(s, b))
    ensures Confirmed(c, Inserted(s, b)) == Confirmed(c, s) && TransactionLedger(c, Inserted(s, b)) == TransactionLedger(c, s)
  {
    hide UnreferredExact, LevelsListed, BestLevel, VotersOk, IndexOk, LedgerOk, ValidConfig, Led, Ledger, Flatten, TransactionsOf,
      RefsBelow, AddProposer, Acyclic, GrownFrom, Elements, Linked, ParentsExact, TransactionsExact, Registered;
    var h, parent := b.hash, b.header.parent;
    NotRegistered(s.db.parentOf, s.db.proposers, s.db.voters, c.proposerGenesis, h);
    ProposerAdded(s.db.proposers, c.proposerGenesis, s.proposerBestLevel, s.unreferredProposers.Keys, h, parent, refs, txRefs);
    VotersAfterProposer(s.db.voters, s.db.proposers, h, parent, refs, txRefs, s.voterBest, c.voterGenesis, s.db.voteCount);
    LedgerAfterProposer(s.db.proposers, s.db.leaders, s.db.ledgerOrder, s.unconfirmed, s.ledgerTip, h, parent, refs, txRefs);
    ProposerParents(s, h, parent, refs, txRefs, c.proposerGenesis);
    ProposerTransactions(s, h, parent, refs, txRefs);
    ProposerRegistered(s, h, parent, refs, txRefs, c.proposerGenesis);
    assert (s.unreferredTransactions - Elements(txRefs)).Keys == s.unreferredTransactions.Keys - Elements(txRefs);
    assert (s.db.parentOf[h := parent]).Keys == s.db.parentOf.Keys + {h};
    assert (s.unreferredProposers[h := b.header.timestamp] - Elements(refs) - {parent}).Keys
      == s.unreferredProposers.Keys + {h} - Elements(refs) - {parent};
  }

  lemma VoterKeepsValid(c: Config, s: State, b: Block, parent: Hash, votes: seq<Hash>)
    requires ValidState(c, s) && b.hash !in Known(c, s) && Acceptable(s, b)
    requires b.content.Voter? && b.content.voterParent == parent && b.content.votes == votes
    ensures s.db.voters.chain[parent] < |s.voterBest|
    ensures ValidState(c, Inserted(s, b))
    ensures Confirmed(c, Inserted(s, b)) == Confirmed(c, s) && TransactionLedger(c, Inserted(s, b)) == TransactionLedger(c, s)
  {
    hide UnreferredExact, GraphOk, VotersOk, IndexOk, LedgerOk, ValidConfig, Led, Ledger, Flatten, TransactionsOf, CoversLevels, AddVoter,
      Acyclic, Linked, ParentsExact, TransactionsExact;
    var h := b.hash;
    VoterParents(s, h, b.header.parent, parent, votes, c.proposerGenesis);
    VoterTransactions(s, h, b.header.parent, parent, votes);
    assert (s.db.parentOf[h := b.header.parent]).Keys == s.db.parentOf.Keys + {h};
    VoterAdded(s.db.voters, s.db.proposers.level, s.voterBest, c.voterGenesis, s.db.voteCount, h, parent, votes, s.db.proposers.level[b.header.parent],
      s.db.voteIndex, s.voterLedgerTips);
  }

  lemma VoterAdded(v: Voters, levels: map<Hash, nat>, best: seq<(Hash, nat)>, genesis: seq<Hash>, count: map<Hash, nat>,
                   h: Hash, parent: Hash, votes: seq<Hash>, voted: nat, index: map<Hash, seq<Vote>>, tips: seq<Hash>)
    requires VotersOk(v, levels, best, genesis, count) && IndexOk(index, v, tips, |genesis|)
    requires h !in v.level && parent in v.level && CoversLevels(votes, levels, v.votedLevel[parent], voted)
    ensures var v' := AddVoter(v, h, parent, votes, voted);
            && v'.level.Keys == v.level.Keys + {h} && v.chain[parent] < |best|
            && VotersOk(v', levels, UpdateBest(best, v.chain[parent], h, v.level[parent] + 1), genesis, AddCounts(count, votes))
            && IndexOk(index, v', tips, |genesis|)
  {
    var v' := AddVoter(v, h, parent, votes, voted);
    AddVoterOk(v, levels, best, h, parent, votes, voted);
    AddVoterIsOneMore(v, h, parent, votes, voted);
    assert NoDup(votes);
    hide AddVoter, CoversLevels, OneRoot, VotesInOrder, BestVoters, CountsExact, HangsBelowParent, PlantedAt, VoteCountsExact,
      VotersExtend, IndexExact, AddCounts;
    OneMoreVoteCount(v, v', count, h);
    PlantedStable(v, v', genesis);
    IndexStable(index, v, v', tips);
    TipsStayOnChains(v, v', tips);
  }

  lemma TipsStayOnChains(v: Voters, v': Voters, tips: seq<Hash>)
    requires Linked(v) && Linked(v') && VotersExtend(v, v') && TipsOk(v, tips)
    ensures TipsOk(v', tips)
  {
    assert forall t | t in tips :: SameBlock(v, v', t);
  }

  lemma TransactionKeepsValid(c: Config, s: State, b: Block)
    requires ValidState(c, s) && b.hash !in Known(c, s) && Acceptable(s, b) && b.content.Transaction?
    ensures ValidState(c, Inserted(s, b))
    ensures Confirmed(c, Inserted(s, b)) == Confirmed(c, s) && TransactionLedger(c, Inserted(s, b)) == TransactionLedger(c, s)
  {
    hide UnreferredExact, GraphOk, VotersOk, IndexOk, LedgerOk, ValidConfig, Led, Ledger, Flatten, TransactionsOf, ParentsExact,
      TransactionsExact;
    TransactionParents(s, b.hash, b.header.parent, c.proposerGenesis);
    TransactionTransactions(s, b.hash);
    assert s.unreferredTransactions[b.hash := b.header.timestamp].Keys == s.unreferredTransactions.Keys + {b.hash};
    assert s.db.parentOf[b.hash := b.header.parent].Keys == s.db.parentOf.Keys + {b.hash};
  }

  lemma TransactionParents(s: State, h: Hash, parent: Hash, genesis: Hash)
    requires ParentsExact(s.db.parentOf, s.db.proposers, s.db.voters, genesis) && parent in s.db.proposers.level
    requires h !in s.db.parentOf
    ensures ParentsExact(s.db.parentOf[h := parent], s.db.proposers, s.db.voters, genesis)
  {
    var parents := s.db.parentOf[h := parent];
    forall x | x in s.db.proposers.level && x != genesis
      ensures FirstRefIsParent(parents, s.db.proposers, x)
    {
      assert FirstRefIsParent(s.db.parentOf, s.db.proposers, x);
    }
    forall x | x in s.db.voters.level
      ensures VotesUpToParent(parents, s.db.proposers, s.db.voters, x)
    {
      assert VotesUpToParent(s.db.parentOf, s.db.proposers, s.db.voters, x);
    }
  }

  lemma TransactionTransactions(s: State, h: Hash)
    requires TransactionsExact(s.unreferredTransactions.Keys, s.db.parentOf.Keys, s.db.proposers, s.db.voters)
    requires h !in s.db.parentOf && h !in s.db.proposers.level && h !in s.db.voters.level
    ensures TransactionsExact(s.unreferredTransactions.Keys + {h}, s.db.parentOf.Keys + {h}, s.db.proposers, s.db.voters)
  {
    TransactionIsUnreferred(s, h);
    hide NotReferred;
    forall q | q in s.db.proposers.txRefs
      ensures RefsRegistered(s.db.proposers.txRefs[q], s.db.parentOf.Keys + {h})
    {
      assert RefsRegistered(s.db.proposers.txRefs[q], s.db.parentOf.Keys);
    }
  }

  lemma NotRegistered(parentOf: map<Hash, Hash>, g: Proposers, v: Voters, genesis: Hash, h: Hash)
    requires Registered(parentOf, g, v, genesis) && h !in parentOf && h != genesis
    ensures h !in g.level && h !in v.level
  {
  }

  lemma ProposerRegistered(s: State, h: Hash, parent: Hash, refs: seq<Hash>, txRefs: seq<Hash>, genesis: Hash)
    requires Registered(s.db.parentOf, s.db.proposers, s.db.voters, genesis) && parent in s.db.proposers.level
    requires h !in s.db.parentOf && h != genesis
    ensures Registered(s.db.parentOf[h := parent], AddProposer(s.db.proposers, h, parent, refs, txRefs), s.db.voters, genesis)
  {
  }

  lemma ProposerParents(s: State, h: Hash, parent: Hash, refs: seq<Hash>, txRefs: seq<Hash>, genesis: Hash)
    requires ParentsExact(s.db.parentOf, s.db.proposers, s.db.voters, genesis) && parent in s.db.proposers.level
    requires h !in s.db.proposers.level && h !in s.db.voters.level && h !in s.db.parentOf
    ensures ParentsExact(s.db.parentOf[h := parent], AddProposer(s.db.proposers, h, parent, refs, txRefs), s.db.voters, genesis)
  {
    var g, g', parents := s.db.proposers, AddProposer(s.db.proposers, h, parent, refs, txRefs), s.db.parentOf[h := parent];
    forall x | x in g'.level && x != genesis
      ensures FirstRefIsParent(parents, g', x)
    {
      assert x != h ==> FirstRefIsParent(s.db.parentOf, g, x);
    }
    forall x | x in s.db.voters.level
      ensures VotesUpToParent(parents, g', s.db.voters, x)
    {
      assert VotesUpToParent(s.db.parentOf, g, s.db.voters, x);
    }
  }

  lemma ProposerTransactions(s: State, h: Hash, parent: Hash, refs: seq<Hash>, txRefs: seq<Hash>)
    requires TransactionsExact(s.unreferredTransactions.Keys, s.db.parentOf.Keys, s.db.proposers, s.db.voters)
    requires parent in s.db.proposers.level && h !in s.db.parentOf && h !in s.db.proposers.txRefs
    requires forall t | t in txRefs :: t in s.db.parentOf
    ensures TransactionsExact(s.unreferredTransactions.Keys - Elements(txRefs), s.db.parentOf.Keys + {h},
                              AddProposer(s.db.proposers, h, parent, refs, txRefs), s.db.voters)
  {
    hide NotReferred;
    var g, g' := s.db.proposers, AddProposer(s.db.proposers, h, parent, refs, txRefs);
    forall q | q in g'.txRefs
      ensures RefsRegistered(g'.txRefs[q], s.db.parentOf.Keys + {h})
    {
      assert q != h ==> RefsRegistered(g.txRefs[q], s.db.parentOf.Keys);
    }
    forall x: Hash
      ensures x in s.unreferredTransactions.Keys - Elements(txRefs) <==>
              x in s.db.parentOf.Keys + {h} && x !in g'.level && x !in s.db.voters.level && NotReferred(g', x)
    {
      ReferredAfter(g, g', h, x);
    }
  }

  lemma ReferredAfter(g: Proposers, g': Proposers, h: Hash, x: Hash)
    requires h !in g.txRefs && h in g'.txRefs && g'.txRefs == g.txRefs[h := g'.txRefs[h]]
    ensures NotReferred(g', x) <==> NotReferred(g, x) && x !in g'.txRefs[h]
  {
    if NotReferred(g', x) {
      forall q | q in g.txRefs
        ensures x !in g.txRefs[q]
      {
        assert g'.txRefs[q] == g.txRefs[q];
      }
    }
  }

  lemma VoterParents(s: State, h: Hash, parent: Hash, voterParent: Hash, votes: seq<Hash>, genesis: Hash)
    requires ParentsExact(s.db.parentOf, s.db.proposers, s.db.voters, genesis) && parent in s.db.proposers.level
    requires voterParent in s.db.voters.level && voterParent in s.db.voters.chain
    requires h !in s.db.parentOf && h !in s.db.proposers.level && h !in s.db.voters.level
    ensures ParentsExact(s.db.parentOf[h := parent], s.db.proposers,
                         AddVoter(s.db.voters, h, voterParent, votes, s.db.proposers.level[parent]), genesis)
  {
    var g, parents := s.db.proposers, s.db.parentOf[h := parent];
    var v, v' := s.db.voters, AddVoter(s.db.voters, h, voterParent, votes, s.db.proposers.level[parent]);
    forall x | x in g.level && x != genesis
      ensures FirstRefIsParent(parents, g, x)
    {
      assert FirstRefIsParent(s.db.parentOf, g, x);
    }
    forall x | x in v'.level
      ensures VotesUpToParent(parents, g, v', x)
    {
      assert x != h ==> VotesUpToParent(s.db.parentOf, g, v, x);
    }
  }

  lemma VoterTransactions(s: State, h: Hash, parent: Hash, voterParent: Hash, votes: seq<Hash>)
    requires TransactionsExact(s.unreferredTransactions.Keys, s.db.parentOf.Keys, s.db.proposers, s.db.voters)
    requires parent in s.db.proposers.level && voterParent in s.db.voters.level && voterParent in s.db.voters.chain
    requires h !in s.db.parentOf
    ensures TransactionsExact(s.unreferredTransactions.Keys, s.db.parentOf.Keys + {h}, s.db.proposers,
                              AddVoter(s.db.voters, h, voterParent, votes, s.db.proposers.level[parent]))
  {
    hide NotReferred;
    forall q | q in s.db.proposers.txRefs
      ensures RefsRegistered(s.db.proposers.txRefs[q], s.db.parentOf.Keys + {h})
    {
      assert RefsRegistered(s.db.proposers.txRefs[q], s.db.parentOf.Keys);
    }
  }

  /** Nothing refers to a block that is not there yet. */
  lemma TransactionIsUnreferred(s: State, h: Hash)
    requires TransactionsExact(s.unreferredTransactions.Keys, s.db.parentOf.Keys, s.db.proposers, s.db.voters)
    requires h !in s.db.parentOf
    ensures NotReferred(s.db.proposers, h)
  {
    forall q | q in s.db.proposers.txRefs
      ensures h !in s.db.proposers.txRefs[q]
    {
      assert RefsRegistered(s.db.proposers.txRefs[q], s.db.parentOf.Keys);
    }
  }

  lemma ProposerAdded(g: Proposers, genesis: Hash, best: nat, unreferred: set<Hash>, h: Hash, parent: Hash, refs: seq<Hash>, txRefs: seq<Hash>)
    requires GraphOk(g, genesis, best) && UnreferredExact(g, unreferred) && h !in g.level && RefsBelow(g, parent, refs)
    ensures var g' := AddProposer(g, h, parent, refs, txRefs);
            && GraphOk(g', genesis, if g.level[parent] + 1 > best then g.level[parent] + 1 else best)
            && UnreferredExact(g', unreferred + {h} - Elements(refs) - {parent})
            && g'.level.Keys == g.level.Keys + {h}
    ensures g.txRefs.Keys == g.level.Keys
  {
    AddProposerOk(g, genesis, best, h, parent, refs, txRefs);
    AddProposerUnreferred(g, unreferred, h, parent, refs, txRefs);
  }

  lemma VotersAfterProposer(v: Voters, g: Proposers, h: Hash, parent: Hash, refs: seq<Hash>, txRefs: seq<Hash>,
                            best: seq<(Hash, nat)>, genesis: seq<Hash>, count: map<Hash, nat>)
    requires VotersOk(v, g.level, best, genesis, count) && h !in g.level && parent in g.level
    ensures VotersOk(v, AddProposer(g, h, parent, refs, txRefs).level, best, genesis, count)
  {
    hide OneRoot, BestVoters, CountsExact, Linked, PlantedAt, VoteCountsExact, VotesInOrder;
    VotesInOrderStable(v, g.level, AddProposer(g, h, parent, refs, txRefs).level);
  }

  lemma LedgerAfterProposer(g: Proposers, leaders: map<nat, Hash>, order: map<nat, seq<Hash>>, unconfirmed: set<Hash>, tip: nat,
                            h: Hash, parent: Hash, refs: seq<Hash>, txRefs: seq<Hash>)
    requires Acyclic(g) && g.txRefs.Keys == g.level.Keys && LedgerOk(g, leaders, order, unconfirmed, tip)
    requires h !in g.level && RefsBelow(g, parent, refs)
    ensures var g' := AddProposer(g, h, parent, refs, txRefs);
            && Acyclic(g') && LedgerOk(g', leaders, order, unconfirmed + {h}, tip)
            && Led(g, leaders, tip + 1) && Led(g', leaders, tip + 1)
            && Ledger(g', leaders, tip + 1) == Ledger(g, leaders, tip + 1)
            && var flat := Flatten(Ledger(g, leaders, tip + 1));
               && (forall x | x in flat :: x in g.txRefs && x in g'.txRefs)
               && TransactionsOf(g', flat) == TransactionsOf(g, flat)
  {
    hide LedgerOk, Led, Ledger, Flatten, TransactionsOf;
    var g' := AddProposer(g, h, parent, refs, txRefs);
    AddProposerExtends(g, h, parent, refs, txRefs);
    LedgerAfterInsert(g, g', leaders, order, unconfirmed, tip, h);
    LedgerHasNoDup(g, leaders, tip + 1);
    TransactionsStable(g, g', Flatten(Ledger(g, leaders, tip + 1)));
  }

  method RemoveAll(m: map<Hash, nat>, keys: seq<Hash>) returns (m': map<Hash, nat>)
    ensures m' == m - Elements(keys)
  {
    m' := m;
    for i := 0 to |keys|
      invariant m' == m - Elements(keys[..i])
    {
      assert Elements(keys[..i + 1]) == Elements(keys[..i]) + {keys[i]};
      m' := m' - {keys[i]};
    }
    assert keys[..|keys|] == keys;
  }

  /** `new`: the genesis blocks, confirmed and voted for by every chain. */
  method Genesis(c: Config) returns (s: State)
    requires ValidConfig(c)
    ensures ValidState(c, s) && s.db.proposers == GenesisGraph(c.proposerGenesis)
    ensures s.db.voters.level.Keys == s.db.parentOf.Keys == Elements(c.voterGenesis)
    ensures s.unreferredProposers == map[c.proposerGenesis := 0] && s.unreferredTransactions == map[]
    ensures Confirmed(c, s) == [c.proposerGenesis] && TransactionLedger(c, s) == []
  {
    hide GraphOk, UnreferredExact, VotersOk, IndexOk, LedgerOk, Linked, Led, Ledger, Flatten, Acyclic, ParentsExact, TransactionsExact;
    var genesis := c.proposerGenesis;
    var g := GenesisGraph(genesis);
    GenesisGraphOk(genesis);
    GenesisLedger(genesis);
    var v, best, index, count, parents := PlantChains(c, g.level);
    s := State(Database(g, v, index, count, map[0 := genesis], map[0 := [genesis]], parents), 0, best, map[], map[genesis := 0],
               {}, 0, c.voterGenesis);
    assert map[genesis := 0].Keys == {genesis};
    GenesisParents(genesis, v, parents);
    assert s.unreferredTransactions.Keys == {};
    assert [genesis] == [] + [genesis];
    TransactionsSnoc(g, [], genesis);
  }

  lemma GenesisParents(genesis: Hash, v: Voters, parents: map<Hash, Hash>)
    requires v.level.Keys == parents.Keys
    requires forall h | h in parents :: parents[h] == genesis && h in v.votedLevel && v.votedLevel[h] == 0
    ensures ParentsExact(parents, GenesisGraph(genesis), v, genesis)
    ensures TransactionsExact({}, parents.Keys, GenesisGraph(genesis), v)
  {
  }

  /** The loop of `new` over the voter chains. */
  method PlantChains(config: Config, levels: map<Hash, nat>)
    returns (v: Voters, best: seq<(Hash, nat)>, index: map<Hash, seq<Vote>>, count: map<Hash, nat>, parents: map<Hash, Hash>)
    requires ValidConfig(config) && levels == map[config.proposerGenesis := 0]
    ensures VotersOk(v, levels, best, config.voterGenesis, count)
    ensures Linked(v) && IndexOk(index, v, config.voterGenesis, |config.voterGenesis|)
    ensures v.level.Keys == parents.Keys == Elements(config.voterGenesis)
    ensures forall h | h in parents :: parents[h] == config.proposerGenesis && h in v.votedLevel && v.votedLevel[h] == 0
  {
    hide VotersOk, IndexOk, Linked;
    var genesis, chains := config.proposerGenesis, config.voterGenesis;
    v, best, index, count, parents := Voters(map[], map[], map[], map[], map[], map[]), [], map[], map[], map[];
    NothingPlanted(levels);
    assert chains[..0] == [];
    for c := 0 to |chains|
      invariant |best| == c && Linked(v) && VotersOk(v, levels, best, chains[..c], count) && IndexOk(index, v, chains[..c], c)
      invariant v.level.Keys == parents.Keys == Elements(chains[..c])
      invariant forall h | h in parents :: parents[h] == genesis && h in v.votedLevel && v.votedLevel[h] == 0
    {
      var h := chains[c];
      assert chains[..c + 1] == chains[..c] + [h] && h !in chains[..c];
      v, best, index, count := PlantChain(genesis, levels, v, best, index, count, chains[..c], h);
      parents := parents[h := genesis];
    }
    assert chains[..|chains|] == chains;
  }

  lemma NothingPlanted(levels: map<Hash, nat>)
    ensures var v := Voters(map[], map[], map[], map[], map[], map[]);
            Linked(v) && VotersOk(v, levels, [], [], map[]) && IndexOk(map[], v, [], 0)
  {
    var v := Voters(map[], map[], map[], map[], map[], map[]);
    NoVoters(levels);
    assert forall p: Hash :: VotersOf(v, p) == {};
  }

  method PlantChain(genesis: Hash, levels: map<Hash, nat>, v: Voters, best: seq<(Hash, nat)>, index: map<Hash, seq<Vote>>,
                    count: map<Hash, nat>, chains: seq<Hash>, h: Hash)
    returns (v': Voters, best': seq<(Hash, nat)>, index': map<Hash, seq<Vote>>, count': map<Hash, nat>)
    requires levels == map[genesis := 0] && Linked(v) && h !in v.level
    requires VotersOk(v, levels, best, chains, count) && IndexOk(index, v, chains, |chains|)
    ensures Linked(v') && v'.level.Keys == v.level.Keys + {h} && |best'| == |best| + 1 && v'.votedLevel == v.votedLevel[h := 0]
    ensures VotersOk(v', levels, best', chains + [h], count') && IndexOk(index', v', chains + [h], |chains + [h]|)
  {
    var c := |best|;
    v' := AddGenesis(v, h, c, genesis);
    count' := AddCounts(count, [genesis]);
    best' := best + [(h, 0)];
    AddGenesisIsOneMore(v, h, c, genesis);
    AddGenesisOk(v, levels, best, h, genesis);
    hide AddGenesis, ForestOk, OneMore, VotersExtend, IndexExact, TipsOnChains, PlantedAt, VoteCountsExact, CountsOneMore, AddCounts;
    OneMoreIsLinked(v, v', h);
    index' := PlantVote(index, v, v', chains, h, genesis);
    OneMoreVoteCount(v, v', count, h);
    PlantedMore(v, v', chains, h);
    GenesisTips(v', chains + [h]);
  }

  lemma OneMoreIsLinked(v: Voters, v': Voters, h: Hash)
    requires Linked(v) && OneMore(v, v', h) && v'.level[h] == 0
    ensures Linked(v') && VotersExtend(v, v')
    ensures h in v'.level && v'.level.Keys == v.level.Keys + {h}
  {
    OneMoreLinked(v, v', h);
  }

  /** The genesis block of a chain votes for the proposer genesis. */
  method PlantVote(index: map<Hash, seq<Vote>>, ghost v: Voters, ghost v': Voters, tips: seq<Hash>, h: Hash, genesis: Hash)
    returns (index': map<Hash, seq<Vote>>)
    requires Linked(v) && Linked(v') && VotersExtend(v, v') && TipsKnown(v, tips) && IndexExact(index, v, tips)
    requires h in v'.level && v'.level[h] == 0 && v'.votes[h] == [genesis]
    ensures TipsKnown(v', tips + [h]) && IndexExact(index', v', tips + [h])
  {
    hide Linked, VotersExtend, Changed;
    index' := MergeVote(index, |tips|, genesis, 0, true);
    IndexWithOneMoreChain(index, index', v, v', tips, h, genesis);
  }

  lemma PlantedStable(v: Voters, v': Voters, genesis: seq<Hash>)
    requires Linked(v) && Linked(v') && VotersExtend(v, v') && PlantedAt(v, genesis)
    ensures PlantedAt(v', genesis)
  {
    forall c | 0 <= c < |genesis|
      ensures BestOfChain(v', (genesis[c], 0), c)
    {
      assert BestOfChain(v, (genesis[c], 0), c);
      assert SameBlock(v, v', genesis[c]);
    }
  }

  lemma PlantedMore(v: Voters, v': Voters, genesis: seq<Hash>, h: Hash)
    requires Linked(v) && Linked(v') && VotersExtend(v, v') && PlantedAt(v, genesis)
    requires h in v'.level && v'.level[h] == 0 && v'.chain[h] == |genesis|
    ensures PlantedAt(v', genesis + [h])
  {
    PlantedStable(v, v', genesis);
  }

  lemma GenesisTips(v: Voters, genesis: seq<Hash>)
    requires Linked(v) && PlantedAt(v, genesis)
    ensures TipsOk(v, genesis)
  {
    forall c | 0 <= c < |genesis|
      ensures genesis[c] in v.level && v.chain[genesis[c]] == c
    {
      assert BestOfChain(v, (genesis[c], 0), c);
    }
  }

  /** The genesis blocks are where they were planted. */
  lemma GenesisLevels(c: Config, s: State)
    requires ValidState(c, s)
    ensures c.proposerGenesis in s.db.proposers.level && s.db.proposers.level[c.proposerGenesis] == 0
    ensures forall i | 0 <= i < |c.voterGenesis| :: GenesisVoter(s.db.voters, c.voterGenesis[i], i)
  {
    hide UnreferredExact, IndexOk, LedgerOk, Registered, ValidConfig, Acyclic, LevelsListed, BestLevel, VoteCountsExact, OneRoot, BestVoters,
      CountsExact, HangsBelowParent;
    forall i | 0 <= i < |c.voterGenesis|
      ensures GenesisVoter(s.db.voters, c.voterGenesis[i], i)
    {
      assert BestOfChain(s.db.voters, (c.voterGenesis[i], 0), i);
      assert GenesisVote(s.db.voters, s.db.proposers.level, c.voterGenesis[i]);
    }
  }

  ghost predicate GenesisVoter(v: Voters, h: Hash, i: nat) {
    h in v.level && h in v.chain && v.chain[h] == i && h in v.votedLevel && v.votedLevel[h] == 0
  }

  /** What an insertion writes to the levels. */
  lemma GraphAfter(s: State, b: Block)
    requires Acceptable(s, b)
    ensures var s' := Inserted(s, b);
            && (b.content.Proposer? ==>
                  && s'.db.proposers.level == s.db.proposers.level[b.hash := s.db.proposers.level[b.header.parent] + 1]
                  && s'.db.voters == s.db.voters)
            && (b.content.Voter? ==>
                  && s'.db.proposers == s.db.proposers
                  && s'.db.voters.level == s.db.voters.level[b.hash := s.db.voters.level[b.content.voterParent] + 1]
                  && s'.db.voters.chain == s.db.voters.chain[b.hash := s.db.voters.chain[b.content.voterParent]]
                  && s'.db.voters.votedLevel == s.db.voters.votedLevel[b.hash := s.db.proposers.level[b.header.parent]])
            && (b.content.Transaction? ==> s'.db.proposers == s.db.proposers && s'.db.voters == s.db.voters)
  {
    hide CoversLevels, RefsBelow, Elements, AddCounts, UpdateBest;
  }

  /** What an insertion writes to the references. */
  lemma RefsAfter(s: State, b: Block)
    requires Acceptable(s, b)
    ensures var g, g' := s.db.proposers, Inserted(s, b).db.proposers;
            if b.content.Proposer? then
              && g'.refs == g.refs[b.hash := [b.header.parent] + b.content.proposerRefs]
              && g'.txRefs == g.txRefs[b.hash := b.content.transactionRefs]
            else g' == g
  {
    hide CoversLevels, RefsBelow, Elements, AddCounts, UpdateBest, AddVoter;
  }

  lemma ParentAfter(s: State, b: Block)
    requires Acceptable(s, b)
    ensures Inserted(s, b).db.parentOf == s.db.parentOf[b.hash := b.header.parent]
  {
    hide CoversLevels, RefsBelow, WithProposer, WithVoter;
    var registered := s.(db := s.db.(parentOf := s.db.parentOf[b.hash := b.header.parent]));
    match b.content {
      case Proposer(txRefs, refs) => ProposerKeepsParents(registered, b.hash, b.header, txRefs, refs);
      case Voter(_, parent, votes) => VoterKeepsParents(registered, b.hash, b.header, parent, votes);
      case Transaction(_) =>
    }
  }

  lemma ProposerKeepsParents(s: State, h: Hash, header: Header, txRefs: seq<Hash>, refs: seq<Hash>)
    requires header.parent in s.db.proposers.level
    ensures WithProposer(s, h, header, txRefs, refs).db.parentOf == s.db.parentOf
  {
    hide AddProposer, Elements;
  }

  lemma VoterKeepsParents(s: State, h: Hash, header: Header, parent: Hash, votes: seq<Hash>)
    requires header.parent in s.db.proposers.level && parent in s.db.voters.level && parent in s.db.voters.chain
    ensures WithVoter(s, h, header, parent, votes).db.parentOf == s.db.parentOf
  {
    hide AddVoter, AddCounts, UpdateBest;
  }
}
