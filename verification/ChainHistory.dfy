/** The chain as a record of its insertions, src/blockchain/mod.rs: every block is kept as it came,
    and wherever one of several blocks has to be preferred, it is the one that came first. */
module ChainHistory {
  import opened Prelude
  import opened Blocks
  import opened LedgerSpec
  import opened ProposerGraph
  import opened VoterTrees
  import opened VoteLevels
  import opened VoterForest
  import opened ChainSteps
  import opened ChainState
  import opened ChainUpdate
  import opened IntakeSpec

  /** The proposer blocks of a level, in the order of insertion. */
  ghost function ProposersAt(levels: map<Hash, nat>, log: seq<Block>, l: nat): seq<Hash> {
    if log == [] then []
    else
      var b := Last(log);
      ProposersAt(levels, Init(log), l) + if b.content.Proposer? && b.hash in levels && levels[b.hash] == l then [b.hash] else []
  }

  /** The voter blocks of a chain, in the order of insertion. */
  ghost function VotersAt(log: seq<Block>, chain: nat): seq<Hash> {
    if log == [] then []
    else VotersAt(Init(log), chain) + if Last(log).content.Voter? && Last(log).content.chainNumber == chain then [Last(log).hash] else []
  }

  /** Every level lists its blocks in the order of insertion. */
  ghost predicate ListedInOrder(genesis: Hash, g: Proposers, log: seq<Block>) {
    forall l: nat :: ListedAt(genesis, g, log, l)
  }

  ghost predicate ListedAt(genesis: Hash, g: Proposers, log: seq<Block>, l: nat) {
    (if l in g.byLevel then g.byLevel[l] else []) == (if l == 0 then [genesis] else []) + ProposersAt(g.level, log, l)
  }

  /** `best` is the first of the highest blocks in a list. */
  ghost predicate FirstHighest(levels: map<Hash, nat>, list: seq<Hash>, best: (Hash, nat)) {
    exists i :: FirstHighestAt(levels, list, best, i)
  }

  ghost predicate FirstHighestAt(levels: map<Hash, nat>, list: seq<Hash>, best: (Hash, nat), i: int) {
    && 0 <= i < |list| && list[i] == best.0 && (forall x | x in list :: x in levels && levels[x] <= best.1)
    && levels[best.0] == best.1 && forall j | 0 <= j < i :: levels[list[j]] < best.1
  }

  /** The best block of every voter chain is the first of the highest blocks of the chain. */
  ghost predicate BestAreFirst(genesis: seq<Hash>, v: Voters, best: seq<(Hash, nat)>, log: seq<Block>) {
    |best| == |genesis| && forall k | 0 <= k < |best| :: FirstHighest(v.level, [genesis[k]] + VotersAt(log, k), best[k])
  }

  /** The chain has the block as it came. */
  ghost predicate BlockKept(s: State, b: Block) {
    && b.hash in s.db.parentOf && s.db.parentOf[b.hash] == b.header.parent
    && (b.content.Voter? ==> VoterKept(s.db.voters, b.hash, b.content))
    && (b.content.Proposer? && b.hash in s.unreferredProposers ==> s.unreferredProposers[b.hash] == b.header.timestamp)
    && (b.content.Transaction? && b.hash in s.unreferredTransactions ==> s.unreferredTransactions[b.hash] == b.header.timestamp)
  }

  ghost predicate VoterKept(v: Voters, h: Hash, content: Content)
    requires content.Voter?
  {
    && h in v.level && h in v.parent && v.parent[h] == content.voterParent && h in v.votes && v.votes[h] == content.votes
    && h in v.chain && v.chain[h] == content.chainNumber
  }

  ghost predicate AllKept(s: State, log: seq<Block>) {
    forall b | b in log :: BlockKept(s, b)
  }

  /** The state is that of a chain into which these blocks were inserted, in this order. */
  ghost predicate Chronicle(c: Config, s: State, log: seq<Block>) {
    && Known(c, s) == GenesisHashes(c) + HashesOf(log) && GenesisHashes(c) !! HashesOf(log) && Unique(log)
    && Recorded(c.proposerGenesis, s.db.proposers, log) && AllKept(s, log)
    && ListedInOrder(c.proposerGenesis, s.db.proposers, log)
    && BestAreFirst(c.voterGenesis, s.db.voters, s.voterBest, log)
    && (c.proposerGenesis in s.unreferredProposers ==> s.unreferredProposers[c.proposerGenesis] == 0)
  }

  lemma FirstHighestSnoc(levels: map<Hash, nat>, list: seq<Hash>, best: (Hash, nat), h: Hash, level: nat)
    requires FirstHighest(levels, list, best) && h !in levels
    ensures FirstHighest(levels[h := level], list + [h], if level > best.1 then (h, level) else best)
  {
    var i :| FirstHighestAt(levels, list, best, i);
    assert forall x | x in list + [h] :: x in list || x == h;
    assert FirstHighestAt(levels[h := level], list + [h], if level > best.1 then (h, level) else best, if level > best.1 then |list| else i);
  }

  lemma FirstHighestStays(levels: map<Hash, nat>, list: seq<Hash>, best: (Hash, nat), h: Hash, level: nat)
    requires FirstHighest(levels, list, best) && h !in levels
    ensures FirstHighest(levels[h := level], list, best)
  {
    var i :| FirstHighestAt(levels, list, best, i);
    assert FirstHighestAt(levels[h := level], list, best, i);
  }

  lemma {:induction false} ProposersAtStays(levels: map<Hash, nat>, levels': map<Hash, nat>, log: seq<Block>, l: nat)
    requires forall b | b in log && b.content.Proposer? ::
               (b.hash in levels <==> b.hash in levels') && (b.hash in levels ==> levels'[b.hash] == levels[b.hash])
    ensures ProposersAt(levels', log, l) == ProposersAt(levels, log, l)
  {
    if log != [] {
      ProposersAtStays(levels, levels', Init(log), l);
    }
  }

  /** A new proposer block goes to the end of the list of its level. */
  lemma ListedAfter(genesis: Hash, g: Proposers, log: seq<Block>, b: Block, refs: seq<Hash>, txRefs: seq<Hash>)
    requires ListedInOrder(genesis, g, log) && b.content.Proposer? && b.hash !in HashesOf(log) && b.header.parent in g.level
    requires forall l: nat | l in g.byLevel :: b.hash !in g.byLevel[l]
    ensures ListedInOrder(genesis, AddProposer(g, b.hash, b.header.parent, refs, txRefs), log + [b])
  {
    var g' := AddProposer(g, b.hash, b.header.parent, refs, txRefs);
    forall l: nat
      ensures ListedAt(genesis, g', log + [b], l)
    {
      assert ListedAt(genesis, g, log, l);
      OthersStay(g, g', log, b, l);
      ListedOne(genesis, g, log, b, refs, txRefs, l);
    }
  }

  lemma OthersStay(g: Proposers, g': Proposers, log: seq<Block>, b: Block, l: nat)
    requires b.hash !in HashesOf(log) && b.hash in g'.level && g'.level == g.level[b.hash := g'.level[b.hash]]
    ensures ProposersAt(g'.level, log, l) == ProposersAt(g.level, log, l)
  {
    forall x | x in log
      ensures x.hash != b.hash
    {
      assert x.hash in HashesOf(log);
    }
    ProposersAtStays(g.level, g'.level, log, l);
  }

  lemma ListedOne(genesis: Hash, g: Proposers, log: seq<Block>, b: Block, refs: seq<Hash>, txRefs: seq<Hash>, l: nat)
    requires ListedAt(genesis, g, log, l) && b.content.Proposer? && b.header.parent in g.level
    requires l in g.byLevel ==> b.hash !in g.byLevel[l]
    requires ProposersAt(AddProposer(g, b.hash, b.header.parent, refs, txRefs).level, log, l) == ProposersAt(g.level, log, l)
    ensures ListedAt(genesis, AddProposer(g, b.hash, b.header.parent, refs, txRefs), log + [b], l)
  {
    SnocInit(log, b);
    var front := if l == 0 then [genesis] else [];
    Assoc(front, ProposersAt(g.level, log, l), [b.hash]);
  }

  lemma ListedStays(genesis: Hash, g: Proposers, log: seq<Block>, b: Block)
    requires ListedInOrder(genesis, g, log) && !b.content.Proposer?
    ensures ListedInOrder(genesis, g, log + [b])
  {
    SnocInit(log, b);
    forall l: nat
      ensures ListedAt(genesis, g, log + [b], l)
    {
      assert ListedAt(genesis, g, log, l);
    }
  }

  lemma VoterAcceptable(s: State, b: Block)
    requires Acceptable(s, b) && b.content.Voter?
    ensures b.content.voterParent in s.db.voters.level && b.content.voterParent in s.db.voters.chain
    ensures s.db.voters.chain[b.content.voterParent] == b.content.chainNumber
  {
  }

  /** What an insertion does to the best voter blocks. */
  lemma BestAfter(s: State, b: Block)
    requires Acceptable(s, b)
    ensures if b.content.Voter? && b.content.chainNumber < |s.voterBest|
            then Inserted(s, b).voterBest ==
                 UpdateBest(s.voterBest, b.content.chainNumber, b.hash, s.db.voters.level[b.content.voterParent] + 1)
            else Inserted(s, b).voterBest == s.voterBest
  {
    hide RefsBelow, AddProposer, AddVoter, AddCounts, Elements, UpdateBest;
  }

  lemma BestFirstAfter(genesis: seq<Hash>, v: Voters, v': Voters, best: seq<(Hash, nat)>, log: seq<Block>, b: Block, level: nat)
    requires BestAreFirst(genesis, v, best, log) && b.content.Voter? && b.content.chainNumber < |best| && b.hash !in v.level
    requires v'.level == v.level[b.hash := level]
    ensures BestAreFirst(genesis, v', UpdateBest(best, b.content.chainNumber, b.hash, level), log + [b])
  {
    SnocInit(log, b);
    var best' := UpdateBest(best, b.content.chainNumber, b.hash, level);
    forall k | 0 <= k < |best|
      ensures FirstHighest(v'.level, [genesis[k]] + VotersAt(log + [b], k), best'[k])
    {
      var list := [genesis[k]] + VotersAt(log, k);
      assert FirstHighest(v.level, list, best[k]);
      hide FirstHighest;
      if k == b.content.chainNumber {
        FirstHighestSnoc(v.level, list, best[k], b.hash, level);
        Assoc([genesis[k]], VotersAt(log, k), [b.hash]);
      } else {
        FirstHighestStays(v.level, list, best[k], b.hash, level);
        assert VotersAt(log, k) + [] == VotersAt(log, k);
      }
    }
  }

  lemma BestFirstStays(genesis: seq<Hash>, v: Voters, best: seq<(Hash, nat)>, log: seq<Block>, b: Block)
    requires BestAreFirst(genesis, v, best, log) && !b.content.Voter?
    ensures BestAreFirst(genesis, v, best, log + [b])
  {
    hide FirstHighest;
    SnocInit(log, b);
    assert forall k: nat :: VotersAt(log + [b], k) == VotersAt(log, k) + [] == VotersAt(log, k);
  }

  /** The lists of unreferred blocks keep the timestamps. */
  lemma TimesAfter(s: State, b: Block)
    requires Acceptable(s, b)
    ensures var s' := Inserted(s, b);
            && (forall h | h in s'.unreferredProposers && h != b.hash ::
                  h in s.unreferredProposers && s'.unreferredProposers[h] == s.unreferredProposers[h])
            && (forall h | h in s'.unreferredTransactions && h != b.hash ::
                  h in s.unreferredTransactions && s'.unreferredTransactions[h] == s.unreferredTransactions[h])
            && (b.content.Proposer? && b.hash in s'.unreferredProposers ==> s'.unreferredProposers[b.hash] == b.header.timestamp)
            && (b.content.Transaction? ==> b.hash in s'.unreferredTransactions && s'.unreferredTransactions[b.hash] == b.header.timestamp)
  {
    hide RefsBelow, AddProposer, AddVoter, AddCounts, UpdateBest;
  }

  /** The voter trees keep every block, and get the new one as it came. */
  lemma VotersAfter(s: State, b: Block)
    requires Acceptable(s, b)
    ensures var v, v' := s.db.voters, Inserted(s, b).db.voters;
            if b.content.Voter?
            then v' == AddVoter(v, b.hash, b.content.voterParent, b.content.votes, s.db.proposers.level[b.header.parent])
            else v' == v
  {
    hide RefsBelow, AddProposer, AddVoter, AddCounts, UpdateBest, Elements;
  }

  lemma KeptAfter(s: State, log: seq<Block>, b: Block)
    requires AllKept(s, log) && Acceptable(s, b) && b.hash !in HashesOf(log)
    ensures AllKept(Inserted(s, b), log + [b])
  {
    hide Acceptable, Inserted;
    var s' := Inserted(s, b);
    ParentAfter(s, b);
    TimesAfter(s, b);
    VotersAfter(s, b);
    if b.content.Voter? {
      VoterAcceptable(s, b);
    }
    forall x | x in log + [b]
      ensures BlockKept(s', x)
    {
      if x in log {
        assert BlockKept(s, x) && x.hash in HashesOf(log);
      } else {
        assert x == b;
      }
    }
  }

  lemma ListedAfterInsert(c: Config, s: State, log: seq<Block>, b: Block)
    requires ValidState(c, s) && ListedInOrder(c.proposerGenesis, s.db.proposers, log) && Acceptable(s, b)
    requires b.hash !in Known(c, s) && b.hash !in HashesOf(log)
    ensures ListedInOrder(c.proposerGenesis, Inserted(s, b).db.proposers, log + [b])
  {
    hide ListedInOrder, Known, HashesOf;
    ProposersAfter(s, b);
    hide Inserted;
    if b.content.Proposer? {
      NewIsUnlisted(c, s, b.hash);
      hide ValidState;
      AcceptableParent(s, b);
      ListedAfter(c.proposerGenesis, s.db.proposers, log, b, b.content.proposerRefs, b.content.transactionRefs);
    } else {
      ListedStays(c.proposerGenesis, s.db.proposers, log, b);
    }
  }

  lemma AcceptableParent(s: State, b: Block)
    requires Acceptable(s, b)
    ensures b.header.parent in s.db.proposers.level
  {
  }

  lemma ProposersAfter(s: State, b: Block)
    requires Acceptable(s, b)
    ensures var g, g' := s.db.proposers, Inserted(s, b).db.proposers;
            if b.content.Proposer? then g' == AddProposer(g, b.hash, b.header.parent, b.content.proposerRefs, b.content.transactionRefs)
            else g' == g
  {
    hide RefsBelow, AddProposer, AddVoter, AddCounts, UpdateBest, Elements;
  }

  lemma NewIsUnlisted(c: Config, s: State, h: Hash)
    requires ValidState(c, s) && h !in Known(c, s)
    ensures forall l: nat | l in s.db.proposers.byLevel :: h !in s.db.proposers.byLevel[l]
  {
    hide UnreferredExact, VotersOk, IndexOk, LedgerOk, ValidConfig, Acyclic, GrownFrom, BestLevel, ParentsExact, TransactionsExact;
  }

  lemma BestAfterInsert(c: Config, s: State, log: seq<Block>, b: Block)
    requires ValidState(c, s) && BestAreFirst(c.voterGenesis, s.db.voters, s.voterBest, log) && Acceptable(s, b) && b.hash !in Known(c, s)
    ensures BestAreFirst(c.voterGenesis, Inserted(s, b).db.voters, Inserted(s, b).voterBest, log + [b])
  {
    hide ValidState, BestAreFirst, Acceptable, Inserted, Known;
    BestAfter(s, b);
    VotersAfter(s, b);
    if b.content.Voter? {
      VoterAcceptable(s, b);
      ChainIsKnown(c, s, b);
      BestFirstAfter(c.voterGenesis, s.db.voters, Inserted(s, b).db.voters, s.voterBest, log, b,
                     s.db.voters.level[b.content.voterParent] + 1);
    } else {
      BestFirstStays(c.voterGenesis, s.db.voters, s.voterBest, log, b);
    }
  }

  lemma ChainIsKnown(c: Config, s: State, b: Block)
    requires ValidState(c, s) && Acceptable(s, b) && b.content.Voter? && b.hash !in Known(c, s)
    ensures b.content.chainNumber < |s.voterBest| && b.hash !in s.db.voters.level
  {
    hide GraphOk, UnreferredExact, IndexOk, LedgerOk, ValidConfig, ParentsExact, TransactionsExact, PlantedAt, VoteCountsExact, OneRoot,
      CountsExact, HangsBelowParent;
    assert NoHigher(s.db.voters, s.voterBest, b.content.voterParent);
  }

  /** One insertion more. */
  lemma ChronicleInsert(c: Config, s: State, log: seq<Block>, b: Block)
    requires ValidState(c, s) && Chronicle(c, s, log) && Acceptable(s, b) && b.hash !in Known(c, s)
    ensures Chronicle(c, Inserted(s, b), log + [b])
  {
    hide ValidState, Acceptable, Inserted, ListedInOrder, BestAreFirst, AllKept, Recorded, HashesOf, Unique, GenesisHashes, Known;
    GenesisIsKnown(c, s);
    KnownAfter(c, s, b);
    HashesOfSnoc(log, b);
    NotYetRecorded(c, s, b.hash);
    RecordedAfter(c, s, log, b);
    KeptAfter(s, log, b);
    ListedAfterInsert(c, s, log, b);
    BestAfterInsert(c, s, log, b);
    TimesAfter(s, b);
  }

  /** An update inserts nothing. */
  lemma ChronicleUpdate(c: Config, s: State, s': State, log: seq<Block>)
    requires Updated(c, s, s') && Chronicle(c, s, log)
    ensures Chronicle(c, s', log)
  {
    hide ValidState, LeadersElected, OnlyAffectedElected, ListedInOrder, BestAreFirst, Recorded, HashesOf, Unique, GenesisHashes;
    forall b | b in log
      ensures BlockKept(s', b)
    {
      assert BlockKept(s, b);
    }
  }

  /** Genesis alone. */
  lemma ChronicleBegins(c: Config, s: State)
    requires ValidState(c, s) && s.db.proposers == GenesisGraph(c.proposerGenesis) && s.db.voters.level.Keys == Elements(c.voterGenesis)
    requires s.unreferredProposers == map[c.proposerGenesis := 0] && Known(c, s) == GenesisHashes(c)
    ensures Chronicle(c, s, [])
  {
    hide ValidState, BestAreFirst, ListedInOrder, Recorded, Known, GenesisHashes, GenesisGraph, Elements;
    FirstBest(c, s);
    NothingInserted(c.proposerGenesis);
  }

  lemma NothingInserted(genesis: Hash)
    ensures HashesOf([]) == {} && ListedInOrder(genesis, GenesisGraph(genesis), []) && Recorded(genesis, GenesisGraph(genesis), [])
  {
    forall l: nat
      ensures ListedAt(genesis, GenesisGraph(genesis), [], l)
    {
    }
  }

  lemma GenesisIsKnown(c: Config, s: State)
    ensures c.proposerGenesis in Known(c, s)
  {
  }

  lemma FirstBest(c: Config, s: State)
    requires ValidState(c, s) && s.db.voters.level.Keys == Elements(c.voterGenesis)
    ensures BestAreFirst(c.voterGenesis, s.db.voters, s.voterBest, [])
  {
    hide GraphOk, UnreferredExact, IndexOk, LedgerOk, Registered, ParentsExact, TransactionsExact, VoteCountsExact, OneRoot, CountsExact,
      HangsBelowParent, VotesInOrder, ValidConfig;
    var v, best, genesis := s.db.voters, s.voterBest, c.voterGenesis;
    forall k | 0 <= k < |best|
      ensures FirstHighest(v.level, [genesis[k]] + VotersAt([], k), best[k])
    {
      assert BestOfChain(v, best[k], k) && BestOfChain(v, (genesis[k], 0), k);
      var i :| 0 <= i < |genesis| && genesis[i] == best[k].0;
      assert BestOfChain(v, (genesis[i], 0), i);
      assert FirstHighestAt(v.level, [genesis[k]] + [], best[k], 0);
    }
  }
}
