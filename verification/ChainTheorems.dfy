/** What the invariant of the chain says about every reachable state, and whole runs of calls. */
module ChainTheorems {
  import opened Prelude
  import opened Blocks
  import opened LedgerSpec
  import opened LedgerOrder
  import opened LedgerUpdate
  import opened ProposerGraph
  import opened VoterTrees
  import opened VoteLevels
  import opened VoteIndex
  import opened VoterForest
  import opened VoteTally
  import opened Election
  import opened ElectionSpec
  import opened LeaderUpdate
  import opened ChainSteps
  import opened ChainState
  import opened ChainUpdate
  import opened Chain
  import opened Validation
  import opened IntakeSpec
  import opened ChainHistory

  /** The stored order is the one rebuilt from genesis out of the stored leaders and the reference
      graph. Every level up to the tip has a leader and an order, the next level has no leader,
      and no order is stored beyond the tip. */
  ghost predicate LedgerRebuilt(s: State) {
    var n := s.ledgerTip + 1;
    && Acyclic(s.db.proposers) && Led(s.db.proposers, s.db.leaders, n) && n !in s.db.leaders
    && (forall l: nat :: l in s.db.ledgerOrder <==> l < n)
    && forall l: nat | l < n :: s.db.ledgerOrder[l] == Ledger(s.db.proposers, s.db.leaders, n)[l]
  }

  lemma LedgerIsRebuilt(c: Config, s: State)
    requires ValidState(c, s)
    ensures LedgerRebuilt(s)
  {
    hide UnreferredExact, VotersOk, IndexOk, Registered, ValidConfig, GrownFrom, LevelsListed, BestLevel, Ledger, Acyclic, Flatten;
  }

  /** The ledger has no duplicates, lists every block after its parent and references, ends each
      level with its leader, and together with the unconfirmed blocks makes up all proposer
      blocks. */
  ghost predicate LedgerPartitions(s: State) {
    var g, n := s.db.proposers, s.ledgerTip + 1;
    && Acyclic(g) && Led(g, s.db.leaders, n)
    && var ledger := Ledger(g, s.db.leaders, n);
       && SoundLedger(g, s.db.leaders, ledger)
       && Elements(Flatten(ledger)) + s.unconfirmed == g.level.Keys && Elements(Flatten(ledger)) !! s.unconfirmed
  }

  lemma LedgerPartitionsBlocks(c: Config, s: State)
    requires ValidState(c, s)
    ensures LedgerPartitions(s)
  {
    hide UnreferredExact, VotersOk, IndexOk, Registered, ValidConfig, GrownFrom, LevelsListed, BestLevel, Ledger, Acyclic, Flatten,
      SoundLedger, LeadersInPlace, Led, ParentsExact, TransactionsExact;
    var g, n := s.db.proposers, s.ledgerTip + 1;
    StoredIsLed(g, s.db.leaders, s.db.ledgerOrder, s.unconfirmed, n);
    LedgerIsSound(g, s.db.leaders, n);
    LedgerHasNoDup(g, s.db.leaders, n);
    ElementsWithin(Flatten(Ledger(g, s.db.leaders, n)), g.level.Keys);
  }

  /** The stored levels up to the tip. */
  ghost function StoredLevels(s: State): (r: seq<seq<Hash>>)
    ensures |r| == s.ledgerTip + 1
  {
    seq(s.ledgerTip + 1, l requires 0 <= l => if l in s.db.ledgerOrder then s.db.ledgerOrder[l] else [])
  }

  /** Every stored level lists what its leader reaches and no lower level has, reference after
      reference. */
  ghost predicate LedgerOrdered(s: State) {
    Acyclic(s.db.proposers) && forall l: nat | l <= s.ledgerTip :: OrderedAt(s.db.proposers, s.db.leaders, StoredLevels(s), l)
  }

  lemma LedgerIsInOrder(c: Config, s: State)
    requires ValidState(c, s)
    ensures LedgerOrdered(s)
  {
    hide ValidState, Ledger, Acyclic, OrderedAt, Led;
    LedgerIsRebuilt(c, s);
    var g, n := s.db.proposers, s.ledgerTip + 1;
    assert StoredLevels(s) == Ledger(g, s.db.leaders, n);
    forall l: nat | l < n
      ensures OrderedAt(g, s.db.leaders, StoredLevels(s), l)
    {
      LedgerIsOrdered(g, s.db.leaders, n, l);
    }
  }

  lemma ElementsWithin(s: seq<Hash>, all: set<Hash>)
    requires forall x | x in s :: x in all
    ensures Elements(s) <= all
  {
  }

  /** Closed under references: with a block, the ledger has everything the block refers to, and
      earlier. */
  lemma LedgerIsClosed(c: Config, s: State, i: nat, r: Hash)
    requires ValidState(c, s) && i < |Confirmed(c, s)|
    ensures Confirmed(c, s)[i] in s.db.proposers.refs
    ensures r in s.db.proposers.refs[Confirmed(c, s)[i]] ==> r in Confirmed(c, s)[..i]
  {
    hide EndsWithLeaders, NoDup;
    LedgerPartitionsBlocks(c, s);
    hide ValidState;
    var flat := Confirmed(c, s);
    ClosedAt(s.db.proposers, flat, i, r);
  }

  lemma ClosedAt(g: Proposers, flat: seq<Hash>, i: nat, r: Hash)
    requires Topological(g, {}, flat) && i < |flat|
    ensures flat[i] in g.refs && (r in g.refs[flat[i]] ==> r in flat[..i])
  {
  }

  /** The vote index lists for every proposer block exactly the levels at which the main chains,
      up to their ledger tips, vote for it. */
  ghost predicate VotesIndexed(s: State) {
    Linked(s.db.voters) && TipsKnown(s.db.voters, s.voterLedgerTips) && IndexExact(s.db.voteIndex, s.db.voters, s.voterLedgerTips)
  }

  lemma VoteIndexIsExact(c: Config, s: State)
    requires ValidState(c, s)
    ensures VotesIndexed(s) && |s.voterLedgerTips| == |c.voterGenesis|
  {
    hide GraphOk, UnreferredExact, LedgerOk, Registered, ValidConfig, PlantedAt, VoteCountsExact, OneRoot, VotesInOrder, BestVoters,
      CountsExact, HangsBelowParent, IndexExact;
  }

  /** Every accepted voter block and its ancestors vote once for each proposer level from 0 to its
      deepest voted level, and a level gets at most one vote from a main chain. */
  lemma VotesNameEveryLevelOnce(c: Config, s: State, h: Hash)
    requires ValidState(c, s) && h in s.db.voters.level
    ensures Linked(s.db.voters) && h in s.db.voters.votedLevel
    ensures var votes := PathVotes(s.db.voters, h);
            && |votes| == s.db.voters.votedLevel[h] + 1
            && forall i | 0 <= i < |votes| :: votes[i] in s.db.proposers.level && s.db.proposers.level[votes[i]] == i
  {
    hide GraphOk, UnreferredExact, IndexOk, LedgerOk, Registered, ValidConfig, PlantedAt, VoteCountsExact, OneRoot, VotesInOrder, BestVoters,
      CountsExact, HangsBelowParent;
    OneVotePerLevel(s.db.voters, s.db.proposers.level, h);
  }

  /** A leader elected by the stricter test stands the test against deconfirmation in the same
      state. */
  lemma ConfirmedIsNotDeconfirmed(c: Config, s: State, level: nat)
    requires ValidState(c, s) && ValidElectorate(ElectorateOf(c, s), c.proposerGenesis, s.proposerBestLevel)
    requires level <= s.proposerBestLevel
    ensures var e := ElectorateOf(c, s);
            var leader := Elect(e, c.proposerGenesis, s.proposerBestLevel, level, false);
            leader.Some? ==> Elect(e, c.proposerGenesis, s.proposerBestLevel, level, true) == leader
  {
    QuantilesInOrder(c, s);
    hide ValidState, ValidElectorate, ElectedLeader, ValidEstimator;
    var e := ElectorateOf(c, s);
    LevelTally(e, c.proposerGenesis, s.proposerBestLevel, level);
    var t := TallyOf(e.voters, e.index, e.voterBest, e.proposers.byLevel[level]);
    var leader := Elect(e, c.proposerGenesis, s.proposerBestLevel, level, false);
    if leader.Some? {
      LowerQuantileKeepsLeader(t, e.estimator, e.deconfirm, e.confirm, leader.value);
    }
  }

  lemma QuantilesInOrder(c: Config, s: State)
    requires ValidState(c, s)
    ensures ValidEstimator(c.estimator) && 0.0 <= c.deconfirm <= c.confirm
  {
    hide GraphOk, UnreferredExact, VotersOk, IndexOk, LedgerOk, Registered;
  }

  /** A call of the chain from outside. */
  datatype Call = Submit(b: Block) | Update

  /** Any run of calls from genesis. Blocks that are known already or do not pass the checks are
      left out. Afterwards the ledger is the rebuilt one and sound, it and the unconfirmed blocks
      partition the proposer blocks, and the vote index is exact. Whoever follows the run by
      cutting off what each `update_ledger` removed and appending what it added holds the current
      ledger. */
  method Follow(config: Config, rules: Rules, calls: seq<Call>) returns (chain: BlockChain, follower: seq<Hash>, ghost log: seq<Block>)
    requires ValidConfig(config) && rules.widths.Valid()
    ensures fresh(chain) && chain.config == config && chain.Valid()
    ensures follower == TransactionLedger(config, chain.View())
    ensures LedgerRebuilt(chain.View()) && VotesIndexed(chain.View())
    ensures LedgerPartitions(chain.View()) && LedgerOrdered(chain.View())
    ensures Chronicle(config, chain.View(), log)
  {
    hide Chronicle, Known, GenesisHashes, Inserted, Passes, GenesisGraph, Elements, ValidState, TransactionLedger, Confirmed, LedgerRebuilt,
      VotesIndexed, LedgerPartitions, LedgerOrdered;
    chain := new BlockChain(config);
    follower, log := [], [];
    OnlyGenesis(config, chain.View());
    ChronicleBegins(config, chain.View());
    for i := 0 to |calls|
      invariant fresh(chain) && chain.config == config && chain.Valid()
      invariant Chronicle(config, chain.View(), log)
      invariant follower == TransactionLedger(config, chain.View())
    {
      match calls[i] {
        case Submit(b) =>
          ghost var before := chain.View();
          Submit(chain, rules, b);
          if b.hash !in Known(config, before) && Passes(rules, before, b) {
            SubmittedIsAcceptable(rules, before, b);
            ChronicleInsert(config, before, log, b);
            log := log + [b];
          }
        case Update =>
          ghost var before := chain.View();
          ghost var ledger := follower;
          var added, removed, kept := chain.UpdateLedger();
          ChronicleUpdate(config, before, chain.View(), log);
          assert ledger == kept + removed;
          follower := follower[..|follower| - |removed|] + added;
          assert ledger[..|ledger| - |removed|] == kept;
      }
    }
    LedgerIsRebuilt(config, chain.View());
    LedgerPartitionsBlocks(config, chain.View());
    LedgerIsInOrder(config, chain.View());
    VoteIndexIsExact(config, chain.View());
  }

  /** The checks of a worker, in its order. */
  ghost predicate Passes(rules: Rules, s: State, b: Block)
    requires rules.widths.Valid()
  {
    CheckPowSortitionId(rules, b) == Pass && Available(s, b) && ProvesContent(rules, b) && Acceptable(s, b) && Signed(rules, b)
  }

  lemma SubmittedIsAcceptable(rules: Rules, s: State, b: Block)
    requires rules.widths.Valid() && Passes(rules, s, b)
    ensures Acceptable(s, b)
  {
  }

  /** Insert a new block if it passes the checks. The ledger does not change. */
  method Submit(chain: BlockChain, rules: Rules, b: Block)
    requires chain.Valid() && rules.widths.Valid()
    modifies chain
    ensures chain.Valid() && TransactionLedger(chain.config, chain.View()) == old(TransactionLedger(chain.config, chain.View()))
    ensures chain.View() == if old(b.hash !in Known(chain.config, chain.View()) && Passes(rules, chain.View(), b))
                            then Inserted(old(chain.View()), b) else old(chain.View())
  {
    hide ValidState, TransactionLedger, Confirmed, Acceptable, Inserted, Absent, Known, CheckPowSortitionId, ProvesContent;
    if b.hash in Known(chain.config, chain.View()) || CheckPowSortitionId(rules, b) != Pass {
      return;
    }
    var verdict := CheckDataAvailability(chain.View(), b);
    if verdict == Pass {
      verdict := CheckSortitionProof(rules, b);
    }
    if verdict == Pass {
      VotersLinked(chain.config, chain.View());
      verdict := CheckContentSemantic(rules, chain.View(), b);
    }
    if verdict == Pass {
      InsertKeepsValid(chain.config, chain.View(), b);
      chain.InsertBlock(b);
    }
  }
}
