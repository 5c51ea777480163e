/** `update_ledger` on values, src/blockchain/mod.rs. */
module ChainUpdate {
  import opened Prelude
  import opened LedgerSpec
  import opened LedgerUpdate
  import opened ProposerGraph
  import opened VoterTrees
  import opened VoteIndex
  import opened VoterForest
  import opened ElectionSpec
  import opened LeaderUpdate
  import opened LeaderJudgement
  import opened ChainSteps
  import opened ChainState

  /** What the elections look at in a state. */
  function ElectorateOf(c: Config, s: State): Electorate {
    Electorate(s.db.proposers, s.db.voters, s.db.voteIndex, s.voterLedgerTips, s.voterBest, c.estimator, c.confirm, c.deconfirm)
  }

  lemma ElectorateIsValid(c: Config, s: State)
    requires ValidState(c, s)
    ensures ValidElectorate(ElectorateOf(c, s), c.proposerGenesis, s.proposerBestLevel)
  {
    hide GraphOk, UnreferredExact, ForestOk, PlantedAt, VoteCountsExact, TipsOk, IndexExact, LedgerOk, Registered, ValidEstimator;
  }

  /** Every level whose votes changed is elected anew; any other level is elected anew or keeps
      its leader. */
  ghost predicate LeadersElected(c: Config, s: State, s': State)
    requires ValidElectorate(ElectorateOf(c, s'), c.proposerGenesis, s'.proposerBestLevel)
  {
    forall l: nat ::
      || (l <= s'.proposerBestLevel
          && Find(s'.db.leaders, l) == Elect(ElectorateOf(c, s'), c.proposerGenesis, s'.proposerBestLevel, l, l in s.db.leaders))
      || (Find(s'.db.leaders, l) == Find(s.db.leaders, l) && Untouched(s, s', l))
  }

  ghost predicate Untouched(s: State, s': State, level: nat) {
    forall p | p in s.db.proposers.level && s.db.proposers.level[p] == level :: !Touched(s.db.voteIndex, s'.db.voteIndex, p)
  }

  /** Every voter chain can move from its ledger tip to its best block. */
  ghost predicate ChainsMove(s: State) {
    && Linked(s.db.voters) && |s.voterLedgerTips| == |s.voterBest|
    && TipsKnown(s.db.voters, s.voterLedgerTips) && TipsKnown(s.db.voters, BestBlocks(s.voterBest))
  }

  /** The levels of the blocks that lose or win a vote when every chain moves from its ledger tip
      to its best block. */
  ghost function SwitchedLevels(s: State): set<nat>
    requires ChainsMove(s)
  {
    SwitchedChains(s.db.voters, s.db.proposers.level, s.voterLedgerTips, BestBlocks(s.voterBest), |s.voterBest|)
  }

  /** `a` is the affected range of an update in this state. */
  ghost predicate AffectedIn(s: State, a: Affected) {
    && ChainsMove(s) && a.Within(s.proposerBestLevel) && Hull(a, SwitchedLevels(s))
  }

  /** The first level elected: the first of the range, or the one after the ledger tip if that is
      lower. */
  function FirstLevel(a: Affected, tip: nat): nat {
    if a == Nothing then 1 else if tip + 1 < a.start then tip + 1 else a.start
  }

  function EndLevel(a: Affected): nat {
    if a == Nothing then 1 else a.end
  }

  /** The state after the first phase. */
  ghost predicate Followed(c: Config, s: State, s': State, a: Affected) {
    && AffectedIn(s, a)
    && s' == s.(db := s.db.(voteIndex := s'.db.voteIndex), voterLedgerTips := BestBlocks(s.voterBest))
    && ValidState(c, s') && a.Within(s.proposerBestLevel)
    && CoversChanges(a, s.db.voteIndex, s'.db.voteIndex, s.db.proposers.level)
  }

  /** The vote index has followed every chain to its best block. */
  ghost predicate CaughtUp(s: State) {
    s.voterLedgerTips == BestBlocks(s.voterBest)
  }

  /** The first phase: the vote index follows every chain to its best block. */
  method FollowVotes(c: Config, s: State) returns (s': State, a: Affected)
    requires ValidState(c, s)
    ensures Followed(c, s, s', a)
    ensures CaughtUp(s) ==> s' == s && a == Nothing
  {
    hide UnreferredExact, ForestOk, PlantedAt, VoteCountsExact, TipsOk, IndexExact, LedgerOk, Registered, ValidConfig, CoversChanges,
      Acyclic, GrownFrom, LevelsListed, Linked, Hull;
    VotersLinked(c, s);
    var index, tips;
    index, tips, a := FollowChains(s.db.voters, s.db.proposers.level, s.db.voteIndex, s.voterLedgerTips, s.voterBest, s.proposerBestLevel);
    s' := s.(db := s.db.(voteIndex := index), voterLedgerTips := tips);
  }

  lemma VotersLinked(c: Config, s: State)
    requires ValidState(c, s)
    ensures Linked(s.db.voters)
  {
  }

  /** The second and third phase: elect leaders on a range of levels, then bring the ledger in
      line with them. */
  method ElectAndConfirm(c: Config, s: State, start: nat, end: nat)
    returns (s': State, added: seq<Hash>, removed: seq<Hash>, ghost kept: seq<Hash>)
    requires ValidState(c, s) && 1 <= start <= end <= s.proposerBestLevel + 1
    ensures Reconfirmed(c, s, s', start, end)
    ensures TransactionLedger(c, s) == kept + removed && TransactionLedger(c, s') == kept + added
    ensures start == end ==> s' == s && added == [] && removed == []
  {
    hide GraphOk, UnreferredExact, VotersOk, IndexOk, LedgerOk, Registered, ValidConfig, Ledger, Flatten, TransactionsOf, Elect,
      ValidElectorate, ElectedBetween, AgreeBelow, LeadersInPlace, Stored, Acyclic, Led;
    ElectorateIsValid(c, s);
    var leaders, begin := ElectLeaders(ElectorateOf(c, s), c.proposerGenesis, s.proposerBestLevel, s.db.leaders, start, end);
    match begin {
      case None =>
        s', added, removed, kept := s, [], [], TransactionLedger(c, s);
      case Some(first) =>
        s', added, removed, kept := Reconfirm(c, s, leaders, start, end, first);
    }
  }

  ghost predicate Reconfirmed(c: Config, s: State, s': State, start: nat, end: nat)
  {
    && ValidState(c, s') && ValidState(c, s) && end <= s.proposerBestLevel + 1
    && s' == s.(db := s.db.(leaders := s'.db.leaders, ledgerOrder := s'.db.ledgerOrder), unconfirmed := s'.unconfirmed, ledgerTip := s'.ledgerTip)
    && ValidElectorate(ElectorateOf(c, s), c.proposerGenesis, s.proposerBestLevel)
    && ElectedBetween(ElectorateOf(c, s), c.proposerGenesis, s.proposerBestLevel, s.db.leaders, s'.db.leaders, start, end)
  }

  method Reconfirm(c: Config, s: State, leaders: map<nat, Hash>, ghost start: nat, ghost end: nat, begin: nat)
    returns (s': State, added: seq<Hash>, removed: seq<Hash>, ghost kept: seq<Hash>)
    requires ValidState(c, s) && ValidElectorate(ElectorateOf(c, s), c.proposerGenesis, s.proposerBestLevel)
    requires 1 <= start <= end <= s.proposerBestLevel + 1 && start <= begin
    requires ElectedBetween(ElectorateOf(c, s), c.proposerGenesis, s.proposerBestLevel, s.db.leaders, leaders, start, end)
    requires AgreeBelow(s.db.leaders, leaders, begin)
    ensures Reconfirmed(c, s, s', start, end)
    ensures TransactionLedger(c, s) == kept + removed && TransactionLedger(c, s') == kept + added
  {
    hide UnreferredExact, VotersOk, IndexOk, Registered, ValidConfig, Ledger, Flatten, TransactionsOf, Elect,
      ValidElectorate, ElectedBetween, AgreeBelow, LeadersInPlace, Stored, Acyclic, LevelsListed, Led;
    var g := s.db.proposers;
    ElectedInPlace(ElectorateOf(c, s), c.proposerGenesis, s.proposerBestLevel, s.db.leaders, leaders, start, end);
    var order, unconfirmed, tip, addedBlocks, removedBlocks;
    ghost var keptBlocks;
    order, unconfirmed, tip, addedBlocks, removedBlocks, keptBlocks :=
      Recompute(g, s.db.leaders, leaders, s.db.ledgerOrder, s.unconfirmed, s.ledgerTip, begin, s.proposerBestLevel);
    s' := s.(db := s.db.(leaders := leaders, ledgerOrder := order), unconfirmed := unconfirmed, ledgerTip := tip);
    DiffOfTransactions(c, s, keptBlocks, removedBlocks);
    DiffOfTransactions(c, s', keptBlocks, addedBlocks);
    removed := CollectTransactions(g, removedBlocks);
    added := CollectTransactions(g, addedBlocks);
    kept := TransactionsOf(g, keptBlocks);
  }

  lemma DiffOfTransactions(c: Config, s: State, kept: seq<Hash>, changed: seq<Hash>)
    requires ValidState(c, s) && Confirmed(c, s) == kept + changed
    ensures forall x | x in kept :: x in s.db.proposers.txRefs
    ensures forall x | x in changed :: x in s.db.proposers.txRefs
    ensures TransactionLedger(c, s) == TransactionsOf(s.db.proposers, kept) + TransactionsOf(s.db.proposers, changed)
  {
    hide ValidState, Confirmed;
    ConfirmedHaveTransactions(c, s);
    TransactionsConcat(s.db.proposers, kept, changed);
  }

  /** The graph and the vote counts stay, the ledger tips are the best voter blocks, and the new
      leaders are the elected ones. */
  ghost predicate Updated(c: Config, s: State, s': State) {
    && ValidState(c, s')
    && s' == s.(db := s.db.(voteIndex := s'.db.voteIndex, leaders := s'.db.leaders, ledgerOrder := s'.db.ledgerOrder),
                unconfirmed := s'.unconfirmed, ledgerTip := s'.ledgerTip, voterLedgerTips := BestBlocks(s.voterBest))
    && ValidElectorate(ElectorateOf(c, s'), c.proposerGenesis, s'.proposerBestLevel)
    && LeadersElected(c, s, s') && OnlyAffectedElected(c, s, s')
  }

  /** Exactly the levels of the affected range, widened down to the ledger tip, are elected
      anew. */
  ghost predicate OnlyAffectedElected(c: Config, s: State, s': State)
    requires ValidElectorate(ElectorateOf(c, s'), c.proposerGenesis, s'.proposerBestLevel)
  {
    exists a :: ElectedIn(c, s, s', a)
  }

  ghost predicate ElectedIn(c: Config, s: State, s': State, a: Affected)
    requires ValidElectorate(ElectorateOf(c, s'), c.proposerGenesis, s'.proposerBestLevel)
  {
    && AffectedIn(s, a) && EndLevel(a) <= s'.proposerBestLevel + 1
    && ElectedBetween(ElectorateOf(c, s'), c.proposerGenesis, s'.proposerBestLevel, s.db.leaders, s'.db.leaders,
                      FirstLevel(a, s.ledgerTip), EndLevel(a))
  }

  /** A block of the level loses or wins the vote of a chain that moves from its ledger tip to its
      best block. */
  ghost predicate VoteMoves(s: State, level: nat)
    requires ChainsMove(s)
  {
    exists chain: nat, p: Hash | chain < |s.voterBest| && p in s.db.proposers.level && s.db.proposers.level[p] == level ::
      VoteMovesAt(s, chain, p)
  }

  ghost predicate VoteMovesAt(s: State, chain: nat, p: Hash)
    requires ChainsMove(s) && chain < |s.voterBest|
  {
    var tip, best := s.voterLedgerTips[chain], s.voterBest[chain].0;
    assert best == BestBlocks(s.voterBest)[chain];
    LosesVote(s.db.voters, tip, best, p) || LosesVote(s.db.voters, best, tip, p)
  }

  /** A level is elected anew if it is no higher than some level with a moving vote, and no lower
      than some such level or beyond the ledger tip. */
  ghost predicate Reelected(s: State, level: nat)
    requires ChainsMove(s)
  {
    && (exists high: nat | VoteMoves(s, high) :: level <= high)
    && (level > s.ledgerTip || exists low: nat | VoteMoves(s, low) :: low <= level)
  }

  /** The levels elected anew have the leader that wins, at the quantile that fits whether they had
      one before; all other levels keep what they had. */
  ghost predicate LeadersJudged(c: Config, s: State, s': State) {
    ChainsMove(s) && c.estimator.ratio < 0.5 && forall l: nat :: JudgedAt(c, s, s', l)
  }

  ghost predicate JudgedAt(c: Config, s: State, s': State, level: nat)
    requires ChainsMove(s) && c.estimator.ratio < 0.5
  {
    if Reelected(s, level)
    then Judged(ElectorateOf(c, s'), level, if level in s.db.leaders then c.deconfirm else c.confirm, Find(s'.db.leaders, level))
    else Find(s'.db.leaders, level) == Find(s.db.leaders, level)
  }

  lemma {:induction false} SwitchedOnSomeChain(s: State, n: nat, level: nat)
    requires ChainsMove(s) && n <= |s.voterBest|
    ensures level in SwitchedChains(s.db.voters, s.db.proposers.level, s.voterLedgerTips, BestBlocks(s.voterBest), n) <==>
            exists chain: nat, p: Hash | chain < n && p in s.db.proposers.level && s.db.proposers.level[p] == level ::
              VoteMovesAt(s, chain, p)
  {
    hide Linked, LosesVote;
    if n > 0 {
      SwitchedOnSomeChain(s, n - 1, level);
      var now := Switched(s.db.voters, s.db.proposers.level, s.voterLedgerTips[n - 1], BestBlocks(s.voterBest)[n - 1]);
      if level in now {
        var p :| p in s.db.proposers.level && s.db.proposers.level[p] == level && VoteMovesAt(s, n - 1, p);
      }
      if chain: nat, p: Hash :| chain < n && p in s.db.proposers.level && s.db.proposers.level[p] == level && VoteMovesAt(s, chain, p) {
        assert chain == n - 1 ==> level in now;
      }
    }
  }

  lemma RangeIsReelected(s: State, a: Affected, level: nat)
    requires ChainsMove(s) && AffectedIn(s, a)
    ensures FirstLevel(a, s.ledgerTip) <= level < EndLevel(a) <==> Reelected(s, level)
  {
    hide Linked, VoteMoves;
    var hit := SwitchedLevels(s);
    forall l: nat
      ensures l in hit <==> VoteMoves(s, l)
    {
      MovesAreSwitched(s, l);
    }
    hide SwitchedLevels;
    if a.Levels? {
      assert VoteMoves(s, a.start) && VoteMoves(s, a.end - 1);
    }
  }

  lemma MovesAreSwitched(s: State, level: nat)
    requires ChainsMove(s)
    ensures level in SwitchedLevels(s) <==> VoteMoves(s, level)
  {
    SwitchedOnSomeChain(s, |s.voterBest|, level);
  }

  lemma UpdatedIsJudged(c: Config, s: State, s': State)
    requires Updated(c, s, s')
    ensures LeadersJudged(c, s, s')
  {
    hide ValidState, LeadersElected, Judged, Reelected, ElectedIn, ValidElectorate;
    var a :| ElectedIn(c, s, s', a);
    hide Updated;
    ChainsAndRatio(c, s, s', a);
    forall l: nat
      ensures JudgedAt(c, s, s', l)
    {
      LevelIsJudged(c, s, s', a, l);
    }
  }

  lemma ChainsAndRatio(c: Config, s: State, s': State, a: Affected)
    requires ValidElectorate(ElectorateOf(c, s'), c.proposerGenesis, s'.proposerBestLevel) && ElectedIn(c, s, s', a)
    ensures ChainsMove(s) && c.estimator.ratio < 0.5
  {
    hide ElectedBetween, ChainsMove, Hull;
  }

  lemma LevelIsJudged(c: Config, s: State, s': State, a: Affected, level: nat)
    requires ValidElectorate(ElectorateOf(c, s'), c.proposerGenesis, s'.proposerBestLevel) && ElectedIn(c, s, s', a)
    requires ChainsMove(s) && c.estimator.ratio < 0.5
    ensures JudgedAt(c, s, s', level)
  {
    hide ValidElectorate, AffectedIn, ChainsMove, Judged, Elect, Reelected;
    RangeIsReelected(s, a, level);
    if Reelected(s, level) {
      ElectIsJudged(ElectorateOf(c, s'), c.proposerGenesis, s'.proposerBestLevel, level, level in s.db.leaders);
    }
  }

  method Update(c: Config, s: State) returns (s': State, added: seq<Hash>, removed: seq<Hash>, ghost kept: seq<Hash>)
    requires ValidState(c, s)
    ensures Updated(c, s, s') && LeadersJudged(c, s, s')
    ensures TransactionLedger(c, s) == kept + removed && TransactionLedger(c, s') == kept + added
    ensures CaughtUp(s) ==> s' == s && added == [] && removed == []
  {
    hide ValidState, CoversChanges, ElectedBetween, LeadersElected, OnlyAffectedElected, Confirmed, Ledger, Flatten, TransactionsOf, Hull,
      SwitchedLevels, LeadersJudged;
    var mid, a := FollowVotes(c, s);
    var start, end := 1, 1;
    if a.Levels? {
      start, end := a.start, a.end;
      if s.ledgerTip + 1 < start {
        start := s.ledgerTip + 1;
      }
    }
    assert start == FirstLevel(a, s.ledgerTip) && end == EndLevel(a);
    s', added, removed, kept := ElectAndConfirm(c, mid, start, end);
    SameConfirmed(c, s, mid);
    ElectorateIsValid(c, s');
    PhasesElect(c, s, mid, s', a, start, end);
    UpdatedIsJudged(c, s, s');
  }

  lemma SameConfirmed(c: Config, s: State, mid: State)
    requires ValidState(c, s) && ValidState(c, mid) && mid.db.proposers == s.db.proposers && mid.db.leaders == s.db.leaders
    requires mid.ledgerTip == s.ledgerTip
    ensures TransactionLedger(c, mid) == TransactionLedger(c, s)
  {
    hide GraphOk, UnreferredExact, VotersOk, IndexOk, Registered, ValidConfig, Ledger, Flatten, TransactionsOf, Stored, LeadersInPlace;
  }

  lemma PhasesElect(c: Config, s: State, mid: State, s': State, a: Affected, start: nat, end: nat)
    requires Followed(c, s, mid, a) && Reconfirmed(c, mid, s', start, end)
    requires start == FirstLevel(a, s.ledgerTip) && end == EndLevel(a)
    requires ValidElectorate(ElectorateOf(c, s'), c.proposerGenesis, s'.proposerBestLevel)
    ensures LeadersElected(c, s, s') && OnlyAffectedElected(c, s, s')
  {
    hide ValidState, ValidElectorate, Elect, Touched, AffectedIn;
    assert ElectorateOf(c, s') == ElectorateOf(c, mid);
    assert ElectedIn(c, s, s', a);
    forall l: nat | !(start <= l < end)
      ensures Untouched(s, s', l)
    {
      assert !a.Covers(l);
    }
  }
}
