/** Counting the votes of a proposer level, the first half of `proposer_leader`,
    src/blockchain/mod.rs. */
module VoteTally {
  import opened Prelude
  import opened VoterTrees
  import opened VoteLevels
  import opened VoteIndex
  import opened VoterForest
  import opened Election
  import opened ElectionSpec

  /** The blocks of a chain from level `start` up to, not including, level `end`. */
  ghost function BlocksBetween(v: Voters, chain: nat, start: nat, end: nat): set<Hash>
    requires Linked(v)
  {
    set h | h in v.level && v.chain[h] == chain && start <= v.level[h] < end
  }

  lemma BlocksBetweenStep(v: Voters, chain: nat, start: nat, end: nat)
    requires Linked(v) && start <= end
    ensures |BlocksBetween(v, chain, start, end + 1)| == |BlocksBetween(v, chain, start, end)| + |LevelSet(v, chain, end)|
  {
    assert BlocksBetween(v, chain, start, end + 1) == BlocksBetween(v, chain, start, end) + LevelSet(v, chain, end);
    assert BlocksBetween(v, chain, start, end) !! LevelSet(v, chain, end);
  }

  /** `num_voter_blocks` counts the blocks of a chain at the given levels, both ends included. */
  method NumVoterBlocks(v: Voters, chain: nat, start: nat, end: nat) returns (total: nat)
    requires Linked(v) && CountsExact(v) && start <= end
    requires forall l | start <= l <= end :: (chain, l) in v.levelCount
    ensures total == |BlocksBetween(v, chain, start, end + 1)|
  {
    hide BlocksBetween, LevelSet, Linked;
    total := 0;
    NoBlocksBetween(v, chain, start);
    for l := start to end + 1
      invariant total == |BlocksBetween(v, chain, start, l)|
    {
      var t := v.levelCount[(chain, l)];
      assert CountAt(v, chain, l) == |LevelSet(v, chain, l)|;
      BlocksBetweenStep(v, chain, start, l);
      total := total + t;
    }
  }

  lemma NoBlocksBetween(v: Voters, chain: nat, start: nat)
    requires Linked(v)
    ensures |BlocksBetween(v, chain, start, start)| == 0
  {
    assert BlocksBetween(v, chain, start, start) == {};
  }

  /** A vote lies on a known chain, no higher than its best block. */
  ghost predicate VoteInRange(vote: Vote, best: seq<(Hash, nat)>) {
    vote.0 < |best| && vote.1 <= best[vote.0].1
  }

  ghost predicate VotesInRange(votes: seq<Vote>, best: seq<(Hash, nat)>) {
    forall x | x in votes :: VoteInRange(x, best)
  }

  /** How deep each vote is buried under its chain's best block. */
  ghost function DepthsOf(votes: seq<Vote>, best: seq<(Hash, nat)>): (r: seq<nat>)
    requires VotesInRange(votes, best)
    ensures |r| == |votes|
  {
    if votes == [] then []
    else
      var last := Last(votes);
      assert VoteInRange(last, best);
      DepthsOf(Init(votes), best) + [best[last.0].1 - last.1 + 1]
  }

  /** How many voter blocks were mined at or above the level of each vote, in total. */
  ghost function BlocksSince(v: Voters, votes: seq<Vote>, best: seq<(Hash, nat)>): nat
    requires Linked(v) && VotesInRange(votes, best)
  {
    if votes == [] then 0
    else
      var last := Last(votes);
      assert VoteInRange(last, best);
      BlocksSince(v, Init(votes), best) + |BlocksBetween(v, last.0, last.1, best[last.0].1 + 1)|
  }

  ghost predicate IndexInRange(index: map<Hash, seq<Vote>>, best: seq<(Hash, nat)>) {
    forall p: Hash :: VotesInRange(Lookup(index, p), best)
  }

  ghost function DepthLists(index: map<Hash, seq<Vote>>, best: seq<(Hash, nat)>, blocks: seq<Hash>): (r: seq<seq<nat>>)
    requires IndexInRange(index, best)
    ensures |r| == |blocks|
  {
    if blocks == [] then [] else DepthLists(index, best, Init(blocks)) + [DepthsOf(Lookup(index, Last(blocks)), best)]
  }

  ghost function TotalSince(v: Voters, index: map<Hash, seq<Vote>>, best: seq<(Hash, nat)>, blocks: seq<Hash>): nat
    requires Linked(v) && IndexInRange(index, best)
  {
    if blocks == [] then 0
    else TotalSince(v, index, best, Init(blocks)) + BlocksSince(v, Lookup(index, Last(blocks)), best)
  }

  /** The tally of a level, from the index of main-chain votes. */
  ghost function TallyOf(v: Voters, index: map<Hash, seq<Vote>>, best: seq<(Hash, nat)>, blocks: seq<Hash>): Tally
    requires Linked(v) && IndexInRange(index, best)
  {
    Tally(blocks, DepthLists(index, best, blocks), TotalSince(v, index, best, blocks), |best|)
  }

  ghost predicate Countable(v: Voters, best: seq<(Hash, nat)>)
    requires Linked(v)
  {
    CountsExact(v) && forall c: nat, l: nat | c < |best| && l <= best[c].1 :: (c, l) in v.levelCount
  }

  /** The votes on one block. */
  method GatherBlock(v: Voters, votes: seq<Vote>, best: seq<(Hash, nat)>) returns (depths: seq<nat>, blocks: nat)
    requires Linked(v) && Countable(v, best) && VotesInRange(votes, best)
    ensures depths == DepthsOf(votes, best) && blocks == BlocksSince(v, votes, best)
  {
    hide BlocksBetween, Linked, CountsExact;
    depths, blocks := [], 0;
    for i := 0 to |votes|
      invariant VotesInRange(votes[..i], best)
      invariant depths == DepthsOf(votes[..i], best) && blocks == BlocksSince(v, votes[..i], best)
    {
      var chain, level := votes[i].0, votes[i].1;
      assert VoteInRange(votes[i], best);
      var bestLevel := best[chain].1;
      var count := NumVoterBlocks(v, chain, level, bestLevel);
      assert Init(votes[..i + 1]) == votes[..i] && Last(votes[..i + 1]) == votes[i];
      blocks := blocks + count;
      depths := depths + [bestLevel - level + 1];
    }
    assert votes[..|votes|] == votes;
  }

  method GatherVotes(v: Voters, index: map<Hash, seq<Vote>>, best: seq<(Hash, nat)>, level: seq<Hash>) returns (t: Tally)
    requires Linked(v) && Countable(v, best) && IndexInRange(index, best)
    ensures t == TallyOf(v, index, best, level)
  {
    hide DepthsOf, BlocksSince, Linked, Countable, VotesInRange;
    var depths, total := [], 0;
    for i := 0 to |level|
      invariant depths == DepthLists(index, best, level[..i]) && total == TotalSince(v, index, best, level[..i])
    {
      assert Init(level[..i + 1]) == level[..i] && Last(level[..i + 1]) == level[i];
      var votes := Lookup(index, level[i]);
      var blockDepths, blocks := GatherBlock(v, votes, best);
      depths := depths + [blockDepths];
      total := total + blocks;
    }
    assert level[..|level|] == level;
    t := Tally(level, depths, total, |best|);
  }

  /** The chains whose votes are counted at a level, one entry per vote. */
  ghost function VotingChains(index: map<Hash, seq<Vote>>, blocks: seq<Hash>): seq<nat> {
    if blocks == [] then [] else VotingChains(index, Init(blocks)) + ChainsOf(Lookup(index, Last(blocks)))
  }

  ghost function ChainsOf(votes: seq<Vote>): (r: seq<nat>)
    ensures |r| == |votes| && forall i | 0 <= i < |votes| :: r[i] == votes[i].0
  {
    seq(|votes|, i requires 0 <= i < |votes| => votes[i].0)
  }

  lemma {:induction false} CountIsChains(index: map<Hash, seq<Vote>>, best: seq<(Hash, nat)>, blocks: seq<Hash>)
    requires IndexInRange(index, best)
    ensures VoteCount(DepthLists(index, best, blocks)) == |VotingChains(index, blocks)|
  {
    if blocks != [] {
      CountIsChains(index, best, Init(blocks));
      SnocInit(DepthLists(index, best, Init(blocks)), DepthsOf(Lookup(index, Last(blocks)), best));
    }
  }

  /** Where an entry comes from. */
  lemma {:induction false} VotingChainHasVote(index: map<Hash, seq<Vote>>, blocks: seq<Hash>, c: nat)
    requires c in VotingChains(index, blocks)
    ensures exists p, l: nat :: p in blocks && (c, l) in Lookup(index, p)
  {
    if c in VotingChains(index, Init(blocks)) {
      VotingChainHasVote(index, Init(blocks), c);
    } else {
      var votes := Lookup(index, Last(blocks));
      var i :| 0 <= i < |votes| && ChainsOf(votes)[i] == c;
      assert votes[i] == (c, votes[i].1) && Last(blocks) in blocks;
    }
  }

  /** All votes of the index are votes of main chains in order, so on one level every chain
      appears at most once. */
  ghost predicate OneVoteEach(index: map<Hash, seq<Vote>>, levels: map<Hash, nat>) {
    && NoDuplicates(index)
    && forall p: Hash, p': Hash, c: nat, l: nat, l': nat |
         (c, l) in Lookup(index, p) && (c, l') in Lookup(index, p') && p in levels && p' in levels && levels[p] == levels[p'] ::
         p == p' && l == l'
  }

  lemma IndexGivesOneVoteEach(index: map<Hash, seq<Vote>>, v: Voters, levels: map<Hash, nat>, tips: seq<Hash>)
    requires Linked(v) && VotesInOrder(v, levels) && TipsKnown(v, tips) && IndexExact(index, v, tips)
    ensures OneVoteEach(index, levels)
  {
    hide Linked, VotesInOrder, VotesFor, NoDuplicates;
    forall p: Hash, p': Hash, c: nat, l: nat, l': nat |
      (c, l) in Lookup(index, p) && (c, l') in Lookup(index, p') && p in levels && p' in levels && levels[p] == levels[p']
      ensures p == p' && l == l'
    {
      AtMostOneVote(v, levels, tips[c], p, l, p', l');
    }
  }

  lemma ChainsOfNoDup(index: map<Hash, seq<Vote>>, levels: map<Hash, nat>, p: Hash)
    requires OneVoteEach(index, levels) && p in levels
    ensures NoDup(ChainsOf(Lookup(index, p)))
  {
    var votes := Lookup(index, p);
    forall i, j | 0 <= i < j < |votes|
      ensures votes[i].0 != votes[j].0
    {
      assert votes[i] == (votes[i].0, votes[i].1) && votes[j] == (votes[j].0, votes[j].1);
      assert votes[i] in votes && votes[j] in votes && NoDup(votes);
    }
  }

  lemma {:induction false} VotingChainsNoDup(index: map<Hash, seq<Vote>>, levels: map<Hash, nat>, blocks: seq<Hash>, level: nat)
    requires OneVoteEach(index, levels) && NoDup(blocks)
    requires forall p | p in blocks :: p in levels && levels[p] == level
    ensures NoDup(VotingChains(index, blocks))
  {
    if blocks != [] {
      VotingChainsNoDup(index, levels, Init(blocks), level);
      ChainsOfNoDup(index, levels, Last(blocks));
      ChainsApart(index, levels, Init(blocks), Last(blocks), level);
      NoDupConcat(VotingChains(index, Init(blocks)), ChainsOf(Lookup(index, Last(blocks))));
    }
  }

  lemma ChainsApart(index: map<Hash, seq<Vote>>, levels: map<Hash, nat>, blocks: seq<Hash>, q: Hash, level: nat)
    requires OneVoteEach(index, levels) && q !in blocks && q in levels && levels[q] == level
    requires forall p | p in blocks :: p in levels && levels[p] == level
    ensures forall c | c in VotingChains(index, blocks) :: c !in ChainsOf(Lookup(index, q))
  {
    forall c | c in VotingChains(index, blocks)
      ensures c !in ChainsOf(Lookup(index, q))
    {
      VotingChainHasVote(index, blocks, c);
      var p, l: nat :| p in blocks && (c, l) in Lookup(index, p);
      var votes := Lookup(index, q);
      forall i | 0 <= i < |votes|
        ensures votes[i].0 != c
      {
        assert votes[i] == (votes[i].0, votes[i].1) && votes[i] in votes;
      }
    }
  }

  /** No level counts more votes than there are chains: the panic of `proposer_leader` is
      unreachable. */
  lemma CountWithinChains(index: map<Hash, seq<Vote>>, levels: map<Hash, nat>, best: seq<(Hash, nat)>, blocks: seq<Hash>, level: nat)
    requires IndexInRange(index, best) && OneVoteEach(index, levels) && NoDup(blocks)
    requires forall p | p in blocks :: p in levels && levels[p] == level
    ensures VoteCount(DepthLists(index, best, blocks)) <= |best|
  {
    hide OneVoteEach, VotesInRange;
    CountIsChains(index, best, blocks);
    VotingChainsNoDup(index, levels, blocks, level);
    forall c | c in VotingChains(index, blocks)
      ensures c < |best|
    {
      VotingChainHasVote(index, blocks, c);
      var p, l: nat :| p in blocks && (c, l) in Lookup(index, p);
      InRange(index, best, p, (c, l));
    }
    Pigeonhole(VotingChains(index, blocks), |best|);
  }

  lemma InRange(index: map<Hash, seq<Vote>>, best: seq<(Hash, nat)>, p: Hash, vote: Vote)
    requires IndexInRange(index, best) && vote in Lookup(index, p)
    ensures VoteInRange(vote, best)
  {
    assert VotesInRange(Lookup(index, p), best);
  }

  /** The tips whose votes the index holds lie on their chains, at or below the best blocks. */
  ghost predicate TipsOnChains(v: Voters, tips: seq<Hash>)
    requires Linked(v)
  {
    forall c | 0 <= c < |tips| :: tips[c] in v.level && v.chain[tips[c]] == c
  }

  lemma IndexIsInRange(index: map<Hash, seq<Vote>>, v: Voters, tips: seq<Hash>, best: seq<(Hash, nat)>)
    requires Linked(v) && BestVoters(v, best) && TipsOnChains(v, tips) && TipsKnown(v, tips) && IndexExact(index, v, tips)
    requires |tips| == |best|
    ensures IndexInRange(index, best)
  {
    hide HangsBelowParent, NoDuplicates;
    forall p: Hash, x | x in Lookup(index, p)
      ensures VoteInRange(x, best)
    {
      assert x == (x.0, x.1);
      assert NoHigher(v, best, tips[x.0]);
    }
  }

  lemma {:induction false} SinceCoversVotes(v: Voters, votes: seq<Vote>, best: seq<(Hash, nat)>)
    requires Linked(v) && BestVoters(v, best) && VotesInRange(votes, best)
    ensures BlocksSince(v, votes, best) >= |votes|
  {
    if votes != [] {
      SinceCoversVotes(v, Init(votes), best);
      var last := Last(votes);
      assert VoteInRange(last, best);
      assert BestOfChain(v, best[last.0], last.0);
      assert Ancestor(v, best[last.0].0, last.1) in BlocksBetween(v, last.0, last.1, best[last.0].1 + 1);
    }
  }

  lemma {:induction false} TotalCoversVotes(v: Voters, index: map<Hash, seq<Vote>>, best: seq<(Hash, nat)>, blocks: seq<Hash>)
    requires Linked(v) && BestVoters(v, best) && IndexInRange(index, best)
    ensures TotalSince(v, index, best, blocks) >= VoteCount(DepthLists(index, best, blocks))
  {
    if blocks != [] {
      TotalCoversVotes(v, index, best, Init(blocks));
      assert VotesInRange(Lookup(index, Last(blocks)), best);
      SinceCoversVotes(v, Lookup(index, Last(blocks)), best);
      SnocInit(DepthLists(index, best, Init(blocks)), DepthsOf(Lookup(index, Last(blocks)), best));
    }
  }

  /** The tally of any level, in any state in which the index is exact. */
  lemma TallyIsValid(v: Voters, levels: map<Hash, nat>, index: map<Hash, seq<Vote>>, tips: seq<Hash>, best: seq<(Hash, nat)>,
                     blocks: seq<Hash>, level: nat)
    requires ForestOk(v, levels, best) && TipsOnChains(v, tips) && TipsKnown(v, tips) && IndexExact(index, v, tips)
    requires |tips| == |best| && NoDup(blocks) && forall p | p in blocks :: p in levels && levels[p] == level
    ensures IndexInRange(index, best) && Countable(v, best)
    ensures TallyOf(v, index, best, blocks).Valid()
  {
    hide Linked, OneRoot, VotesInOrder, BestVoters, IndexExact, TipsOnChains, IndexInRange, OneVoteEach, CountsExact;
    IndexIsInRange(index, v, tips, best);
    IndexGivesOneVoteEach(index, v, levels, tips);
    CountWithinChains(index, levels, best, blocks, level);
    TotalCoversVotes(v, index, best, blocks);
    forall c: nat, l: nat | c < |best| && l <= best[c].1
      ensures (c, l) in v.levelCount
    {
      CountedUpToBest(v, best, c, l);
    }
  }

  /** `proposer_leader` on the blocks of one level. */
  method ProposerLeader(v: Voters, index: map<Hash, seq<Vote>>, best: seq<(Hash, nat)>, blocks: seq<Hash>,
                        e: Estimator, quantile: real)
    returns (leader: Option<Hash>)
    requires Linked(v) && Countable(v, best) && IndexInRange(index, best) && TallyOf(v, index, best, blocks).Valid()
    requires ValidEstimator(e) && quantile >= 0.0
    ensures leader == ElectedLeader(TallyOf(v, index, best, blocks), e, quantile)
    ensures LeaderWins(TallyOf(v, index, best, blocks), e, quantile, leader)
  {
    hide LeaderWins, Linked, Countable, IndexInRange, ValidEstimator, ElectedLeader;
    var t := GatherVotes(v, index, best, blocks);
    assert VoteCount(t.depths) <= |best|;  // the source panics otherwise
    leader := DecideLeader(t, e, quantile);
  }
}
