/** The contents the miner works on, src/miner/mod.rs: one candidate for every sortition id. */
module MinerContents {
  import opened Prelude
  import opened Blocks
  import opened LedgerSpec
  import opened ProposerGraph
  import opened VoterTrees
  import opened VoteLevels
  import opened VoterForest
  import opened ChainSteps
  import opened ChainState
  import opened ChainReads
  import opened Validation
  import opened Growth
  import opened Sortition

  /** A proposer content, a transaction content, then a voter content for every chain. */
  ghost predicate Layout(contents: seq<Content>, chains: nat) {
    && |contents| == chains + FIRST_VOTER_INDEX
    && contents[PROPOSER_INDEX].Proposer? && contents[TRANSACTION_INDEX].Transaction?
    && forall i | FIRST_VOTER_INDEX <= i < |contents| :: contents[i].Voter? && contents[i].chainNumber == i - FIRST_VOTER_INDEX
  }

  /** A content fits its place: its id is where it sits. */
  lemma LayoutIds(contents: seq<Content>, chains: nat, id: nat)
    requires Layout(contents, chains) && id < |contents|
    ensures IdOf(contents[id]) == id
  {
  }

  /** The parent of a voter candidate is a block of its chain. */
  ghost predicate ParentKnown(v: Voters, content: Content) {
    content.Voter? ==>
      && content.voterParent in v.level && content.voterParent in v.chain && content.voterParent in v.votedLevel
      && v.chain[content.voterParent] == content.chainNumber
  }

  /** A voter candidate votes for every level after its parent's, up to that of `parent`. */
  ghost predicate VotesFit(s: State, parent: Hash, content: Content) {
    content.Voter? ==>
      && ParentKnown(s.db.voters, content) && parent in s.db.proposers.level
      && CoversLevels(content.votes, s.db.proposers.level, s.db.voters.votedLevel[content.voterParent], s.db.proposers.level[parent])
  }

  /** A proposer candidate refers to transaction blocks of the chain and to proposer blocks no
      higher than its parent. */
  ghost predicate RefsFit(s: State, parent: Hash, content: Content) {
    content.Proposer? ==>
      && RefsBelow(s.db.proposers, parent, content.proposerRefs)
      && forall t | t in content.transactionRefs :: t in s.db.parentOf
  }

  ghost predicate ParentsKnown(v: Voters, contents: seq<Content>) {
    forall i | 0 <= i < |contents| :: ParentKnown(v, contents[i])
  }

  /** Every candidate would be accepted as a block with this parent. */
  ghost predicate Ready(s: State, parent: Hash, contents: seq<Content>) {
    && parent in s.db.proposers.level
    && forall i | 0 <= i < |contents| :: VotesFit(s, parent, contents[i]) && RefsFit(s, parent, contents[i])
  }

  /** Only the contents listed in `touched` changed. */
  ghost predicate OnlyTouched(before: seq<Content>, after: seq<Content>, touched: set<nat>) {
    && |after| == |before| && (forall i | i in touched :: i < |before|)
    && forall i: nat | i < |before| && i !in touched :: after[i] == before[i]
  }

  /** The proposer and transaction candidates did not change. */
  ghost predicate SameFront(contents: seq<Content>, contents': seq<Content>) {
    |contents'| == |contents| && forall i | 0 <= i < FIRST_VOTER_INDEX && i < |contents| :: contents'[i] == contents[i]
  }

  /** The voter candidates did not change. */
  ghost predicate SameVoters(contents: seq<Content>, contents': seq<Content>) {
    |contents'| == |contents| && forall i | FIRST_VOTER_INDEX <= i < |contents| :: contents'[i] == contents[i]
  }

  /** Exactly the candidates of these chains move to the best blocks of their chains. */
  ghost predicate MovedToBest(s: State, contents: seq<Content>, contents': seq<Content>, chains: seq<nat>) {
    |contents'| == |contents| && forall k: nat | k + FIRST_VOTER_INDEX < |contents| :: MovedOne(s, contents, contents', chains, k)
  }

  ghost predicate MovedOne(s: State, contents: seq<Content>, contents': seq<Content>, chains: seq<nat>, k: nat)
    requires k + FIRST_VOTER_INDEX < |contents| == |contents'|
  {
    var before, after := contents[k + FIRST_VOTER_INDEX], contents'[k + FIRST_VOTER_INDEX];
    if k in chains then k < |s.voterBest| && before.Voter? && after == before.(voterParent := s.voterBest[k].0) else after == before
  }

  lemma OneMoreMoved(s: State, contents: seq<Content>, mid: seq<Content>, contents': seq<Content>, chains: seq<nat>, k: nat)
    requires MovedToBest(s, contents, mid, chains) && k + FIRST_VOTER_INDEX < |contents| && k < |s.voterBest|
    requires contents[k + FIRST_VOTER_INDEX].Voter? && mid[k + FIRST_VOTER_INDEX].Voter?
    requires contents' == mid[k + FIRST_VOTER_INDEX := mid[k + FIRST_VOTER_INDEX].(voterParent := s.voterBest[k].0)]
    ensures MovedToBest(s, contents, contents', chains + [k])
  {
    forall j: nat | j + FIRST_VOTER_INDEX < |contents|
      ensures MovedOne(s, contents, contents', chains + [k], j)
    {
      assert MovedOne(s, contents, mid, chains, j);
    }
  }

  /** Every voter candidate votes for the most voted block of each level it has to vote for. */
  ghost predicate VotesAreBest(s: State, parent: Hash, contents: seq<Content>) {
    forall i | FIRST_VOTER_INDEX <= i < |contents| :: VoteIsBest(s, parent, contents[i])
  }

  ghost predicate VoteIsBest(s: State, parent: Hash, content: Content) {
    && content.Voter? && content.voterParent in s.db.voters.votedLevel && parent in s.db.proposers.level
    && BestVotes(s.db.proposers, s.db.voteCount, content.votes, s.db.voters.votedLevel[content.voterParent], s.db.proposers.level[parent])
  }

  /** Same parents of all voter candidates. */
  ghost predicate SameParents(contents: seq<Content>, contents': seq<Content>) {
    && |contents'| == |contents|
    && forall i | FIRST_VOTER_INDEX <= i < |contents| ::
         contents[i].Voter? && contents'[i].Voter? && contents'[i].voterParent == contents[i].voterParent
  }

  /** Move the voter candidates of some chains to the best blocks of these chains. */
  method UpdateVoterParents(c: Config, s: State, contents: seq<Content>, chains: seq<nat>)
    returns (contents': seq<Content>, touched: set<nat>)
    requires ValidState(c, s) && Layout(contents, |c.voterGenesis|) && ParentsKnown(s.db.voters, contents)
    requires forall k | k in chains :: k < |c.voterGenesis|
    ensures Layout(contents', |c.voterGenesis|) && ParentsKnown(s.db.voters, contents')
    ensures OnlyTouched(contents, contents', touched) && SameFront(contents, contents')
    ensures chains == [] ==> contents' == contents
    ensures MovedToBest(s, contents, contents', chains)
  {
    hide ValidState, ParentKnown, MovedToBest;
    contents', touched := contents, {};
    NoneMoved(s, contents);
    for i := 0 to |chains|
      invariant Layout(contents', |c.voterGenesis|) && ParentsKnown(s.db.voters, contents')
      invariant OnlyTouched(contents, contents', touched) && SameFront(contents, contents')
      invariant i == 0 ==> contents' == contents
      invariant MovedToBest(s, contents, contents', chains[..i])
    {
      var chain := chains[i];
      assert chain in chains;
      var id := chain + FIRST_VOTER_INDEX;
      BestVoterKnown(c, s, chain);
      var parent := s.voterBest[chain].0;
      OneMoreMoved(s, contents, contents', contents'[id := contents'[id].(voterParent := parent)], chains[..i], chain);
      if parent != contents'[id].voterParent {
        var moved := contents'[id].(voterParent := parent);
        MovedIsKnown(s.db.voters, moved);
        contents', touched := contents'[id := moved], touched + {id};
      } else {
        assert contents'[id := contents'[id].(voterParent := parent)] == contents';
      }
      assert chains[..i + 1] == chains[..i] + [chain];
    }
    assert chains[..|chains|] == chains;
  }

  lemma NoneMoved(s: State, contents: seq<Content>)
    ensures MovedToBest(s, contents, contents, [])
  {
  }

  lemma MovedIsKnown(v: Voters, content: Content)
    requires content.Voter? && content.voterParent in v.level && content.voterParent in v.chain && content.voterParent in v.votedLevel
    requires v.chain[content.voterParent] == content.chainNumber
    ensures ParentKnown(v, content)
  {
  }

  /** `best_voter`. */
  lemma BestVoterKnown(c: Config, s: State, chain: nat)
    requires ValidState(c, s) && chain < |c.voterGenesis|
    ensures |s.voterBest| == |c.voterGenesis|
    ensures var h := s.voterBest[chain].0;
            h in s.db.voters.level && h in s.db.voters.chain && h in s.db.voters.votedLevel && s.db.voters.chain[h] == chain
  {
    hide GraphOk, UnreferredExact, IndexOk, LedgerOk, Registered, ValidConfig, VoteCountsExact, OneRoot, VotesInOrder, CountsExact,
      HangsBelowParent, PlantedAt;
    assert BestOfChain(s.db.voters, s.voterBest[chain], chain);
  }

  /** The deepest voted level of a voter block is not above the best proposer level. */
  lemma VotedIsBelowBest(c: Config, s: State, h: Hash)
    requires ValidState(c, s) && h in s.db.voters.level
    ensures h in s.db.voters.votedLevel && s.db.voters.votedLevel[h] <= s.proposerBestLevel
  {
    hide UnreferredExact, IndexOk, LedgerOk, Registered, ValidConfig, VoteCountsExact, OneRoot, CountsExact, HangsBelowParent, PlantedAt,
      BestVoters, Acyclic, GrownFrom, LevelsListed, VotesInOrder;
    OneVotePerLevel(s.db.voters, s.db.proposers.level, h);
    var voted := s.db.voters.votedLevel[h];
    var last := PathVotes(s.db.voters, h)[voted];
    assert s.db.proposers.level[last] == voted;
  }

  /** `unvoted_proposer` for every chain; with `all`, every voter content counts as touched, and
      otherwise those whose votes change. */
  method UpdateVotes(c: Config, s: State, parent: Hash, contents: seq<Content>, touched: set<nat>, all: bool, ghost before: seq<Content>)
    returns (contents': seq<Content>, touched': set<nat>)
    requires ValidState(c, s) && Layout(contents, |c.voterGenesis|) && ParentsKnown(s.db.voters, contents)
    requires parent in s.db.proposers.level && s.db.proposers.level[parent] == s.proposerBestLevel
    requires RefsFit(s, parent, contents[PROPOSER_INDEX]) && OnlyTouched(before, contents, touched)
    ensures Layout(contents', |c.voterGenesis|) && Ready(s, parent, contents') && OnlyTouched(before, contents', touched')
    ensures SameFront(contents, contents') && SameParents(contents, contents') && VotesAreBest(s, parent, contents')
  {
    hide ValidState, ParentKnown, RefsFit, VotesFit, VoteIsBest;
    contents', touched' := contents, touched;
    for chain := 0 to |c.voterGenesis|
      invariant Layout(contents', |c.voterGenesis|) && ParentsKnown(s.db.voters, contents')
      invariant OnlyTouched(before, contents', touched') && SameFront(contents, contents') && SameParents(contents, contents')
      invariant forall i | FIRST_VOTER_INDEX <= i < chain + FIRST_VOTER_INDEX ::
                  VotesFit(s, parent, contents'[i]) && VoteIsBest(s, parent, contents'[i])
    {
      var id := chain + FIRST_VOTER_INDEX;
      var votes := Unvoted(c, s, parent, contents'[id]);
      if all || votes != contents'[id].votes {
        contents', touched' := contents'[id := contents'[id].(votes := votes)], touched' + {id};
      } else {
        assert contents'[id].(votes := votes) == contents'[id];
      }
    }
    AllReady(s, parent, contents', |c.voterGenesis|);
  }

  method Unvoted(c: Config, s: State, parent: Hash, content: Content) returns (votes: seq<Hash>)
    requires ValidState(c, s) && content.Voter? && ParentKnown(s.db.voters, content)
    requires parent in s.db.proposers.level && s.db.proposers.level[parent] == s.proposerBestLevel
    ensures VotesFit(s, parent, content.(votes := votes)) && ParentKnown(s.db.voters, content.(votes := votes))
    ensures VoteIsBest(s, parent, content.(votes := votes))
  {
    hide ValidState, BestVotes, CoversLevels, LevelsListed, BestLevel;
    votes := UnvotedProposer(c, s, content.voterParent, parent);
    VotedIsBelowBest(c, s, content.voterParent);
    LevelsHaveBlocks(c, s);
    BestVotesCover(s.db.proposers, s.db.voteCount, votes, s.db.voters.votedLevel[content.voterParent], s.db.proposers.level[parent]);
  }

  lemma AllReady(s: State, parent: Hash, contents: seq<Content>, chains: nat)
    requires Layout(contents, chains) && parent in s.db.proposers.level && RefsFit(s, parent, contents[PROPOSER_INDEX])
    requires forall i | FIRST_VOTER_INDEX <= i < |contents| :: VotesFit(s, parent, contents[i])
    ensures Ready(s, parent, contents)
  {
    hide CoversLevels, RefsBelow;
  }

  /** `refs` are the oldest of the keys, at most `quota` of them, oldest first. */
  ghost predicate Oldest(m: map<Hash, nat>, refs: seq<Hash>, quota: nat) {
    && NoDup(refs) && Elements(refs) <= m.Keys && |refs| == (if |m| <= quota then |m| else quota)
    && (forall i, j | 0 <= i < j < |refs| :: TimeOf(m, refs[i]) <= TimeOf(m, refs[j]))
    && forall i, k | 0 <= i < |refs| && k in m && k !in refs :: TimeOf(m, refs[i]) <= TimeOf(m, k)
  }

  /** A proposer candidate as fresh as the chain: the oldest unreferred transaction blocks, and
      all unreferred proposer blocks but the parent, oldest first. */
  ghost predicate FreshRefs(s: State, parent: Hash, quota: nat, content: Content) {
    && content.Proposer? && Oldest(s.unreferredTransactions, content.transactionRefs, quota)
    && SortedKeys(s.unreferredProposers - {parent}, content.proposerRefs)
  }

  method RefreshRefs(c: Config, s: State, parent: Hash, quota: nat) returns (content: Content)
    requires ValidState(c, s) && parent in s.db.proposers.level && s.db.proposers.level[parent] == s.proposerBestLevel
    ensures content.Proposer? && RefsFit(s, parent, content) && FreshRefs(s, parent, quota, content)
  {
    hide ValidState, Oldest;
    var txRefs := RefreshTransactionRefs(c, s, quota);
    var unreferred := ByTimestamp(s.unreferredProposers);
    var refs := Retain(s.unreferredProposers, unreferred, parent);
    content := Content.Proposer(txRefs, refs);
    forall r | r in refs
      ensures r in s.db.proposers.level && s.db.proposers.level[r] <= s.db.proposers.level[parent]
    {
      assert r in Elements(refs);
      UnreferredIsBelow(c, s, r);
    }
  }

  method RefreshTransactionRefs(c: Config, s: State, quota: nat) returns (refs: seq<Hash>)
    requires ValidState(c, s)
    ensures Oldest(s.unreferredTransactions, refs, quota) && forall t | t in refs :: t in s.db.parentOf
  {
    hide ValidState;
    var all := ByTimestamp(s.unreferredTransactions);
    refs := if |all| <= quota then all else all[..quota];
    FirstAreOldest(s.unreferredTransactions, all, refs, quota);
    forall t | t in refs
      ensures t in s.db.parentOf
    {
      assert t in Elements(refs);
      UnreferredIsKnown(c, s, t);
    }
  }

  lemma FirstAreOldest(m: map<Hash, nat>, all: seq<Hash>, refs: seq<Hash>, quota: nat)
    requires SortedKeys(m, all) && refs == if |all| <= quota then all else all[..quota]
    ensures Oldest(m, refs, quota)
  {
    NoDupCardinality(all);
    assert |m| == |m.Keys| == |all|;
    forall x | x in refs
      ensures x in m
    {
      assert x in Elements(all);
    }
    forall i, k | 0 <= i < |refs| && k in m && k !in refs
      ensures TimeOf(m, refs[i]) <= TimeOf(m, k)
    {
      assert k in Elements(all);
      var j :| 0 <= j < |all| && all[j] == k;
      assert j >= |refs|;
    }
  }

  lemma UnreferredIsBelow(c: Config, s: State, h: Hash)
    requires ValidState(c, s) && h in s.unreferredProposers
    ensures h in s.db.proposers.level && s.db.proposers.level[h] <= s.proposerBestLevel
  {
    hide VotersOk, IndexOk, LedgerOk, Registered, ValidConfig, Acyclic, GrownFrom, LevelsListed;
  }

  lemma UnreferredIsKnown(c: Config, s: State, t: Hash)
    requires ValidState(c, s) && t in s.unreferredTransactions
    ensures t in s.db.parentOf
  {
    hide GraphOk, UnreferredExact, VotersOk, IndexOk, LedgerOk, Registered, ValidConfig, ParentsExact;
  }

  /** `retain`, which keeps the order. */
  method Retain(m: map<Hash, nat>, list: seq<Hash>, parent: Hash) returns (r: seq<Hash>)
    requires SortedKeys(m, list)
    ensures SortedKeys(m - {parent}, r)
  {
    r := [];
    for i := 0 to |list|
      invariant Elements(r) == Elements(list[..i]) - {parent} && NoDup(r)
      invariant forall a, b | 0 <= a < b < |r| :: TimeOf(m, r[a]) <= TimeOf(m, r[b])
    {
      assert list[..i + 1] == list[..i] + [list[i]];
      ElementsConcat(list[..i], [list[i]]);
      assert Elements([list[i]]) == {list[i]};
      if list[i] != parent {
        EarlierIsOlder(m, list, i, r, parent);
        NoDupConcat(r, [list[i]]);
        ElementsConcat(r, [list[i]]);
        r := r + [list[i]];
      }
    }
    assert list[..|list|] == list;
    assert forall x | x in r :: x in Elements(r) && TimeOf(m - {parent}, x) == TimeOf(m, x);
  }

  lemma EarlierIsOlder(m: map<Hash, nat>, list: seq<Hash>, i: nat, r: seq<Hash>, parent: Hash)
    requires SortedKeys(m, list) && i < |list| && Elements(r) == Elements(list[..i]) - {parent}
    ensures list[i] !in r && forall x | x in r :: TimeOf(m, x) <= TimeOf(m, list[i])
  {
    forall x | x in r
      ensures TimeOf(m, x) <= TimeOf(m, list[i]) && x != list[i]
    {
      assert x in Elements(r);
      assert x in list[..i];
    }
  }

  /** The candidates of `new`: nothing to refer to, and nothing to vote for beyond genesis. */
  function FirstContents(genesis: seq<Hash>): seq<Content> {
    [Content.Proposer([], []), Content.Transaction([])] +
    seq(|genesis|, c requires 0 <= c < |genesis| => Content.Voter(c, genesis[c], []))
  }

  lemma FirstIsReady(c: Config, s: State)
    requires ValidState(c, s)
    ensures Layout(FirstContents(c.voterGenesis), |c.voterGenesis|)
    ensures Ready(s, c.proposerGenesis, FirstContents(c.voterGenesis))
  {
    hide ValidState;
    GenesisLevels(c, s);
    var contents := FirstContents(c.voterGenesis);
    forall i | 0 <= i < |contents|
      ensures VotesFit(s, c.proposerGenesis, contents[i]) && RefsFit(s, c.proposerGenesis, contents[i])
    {
      if i >= FIRST_VOTER_INDEX {
        assert contents[i] == Content.Voter(i - FIRST_VOTER_INDEX, c.voterGenesis[i - FIRST_VOTER_INDEX], []);
        assert GenesisVoter(s.db.voters, c.voterGenesis[i - FIRST_VOTER_INDEX], i - FIRST_VOTER_INDEX);
      }
    }
  }

  /** Candidates stay acceptable while the chain grows. */
  lemma ReadyStable(s: State, s': State, parent: Hash, contents: seq<Content>)
    requires Grown(s, s') && Ready(s, parent, contents)
    ensures Ready(s', parent, contents)
  {
    forall i | 0 <= i < |contents|
      ensures VotesFit(s', parent, contents[i]) && RefsFit(s', parent, contents[i])
    {
      assert VotesFit(s, parent, contents[i]) && RefsFit(s, parent, contents[i]);
    }
  }
}
