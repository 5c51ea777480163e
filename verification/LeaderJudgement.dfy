/** What it takes to be elected, said of the voter trees and the proposer levels and not of the
    code that counts: src/blockchain/mod.rs, `proposer_leader` and the election loop of
    `update_ledger`. */
module LeaderJudgement {
  import opened Prelude
  import opened VoterTrees
  import opened VoteIndex
  import opened VoterForest
  import opened VoteTally
  import opened ElectionSpec
  import opened VoteBounds
  import opened Election
  import opened LeaderUpdate

  ghost function SumOver<T>(s: seq<T>, f: T -> nat): nat {
    if s == [] then 0 else SumOver(Init(s), f) + f(Last(s))
  }

  /** All voter blocks of a chain, on any fork, from a level on. */
  ghost function MinedSince(v: Voters, chain: nat, level: nat): set<Hash> {
    set h | h in v.level && h in v.chain && v.chain[h] == chain && v.level[h] >= level
  }

  ghost function CountVotesFor(index: map<Hash, seq<Vote>>): Hash -> nat {
    (p: Hash) => |Lookup(index, p)|
  }

  ghost function CountMined(v: Voters): Vote -> nat {
    (x: Vote) => |MinedSince(v, x.0, x.1)|
  }

  ghost function CountMinedFor(v: Voters, index: map<Hash, seq<Vote>>): Hash -> nat {
    (p: Hash) => SumOver(Lookup(index, p), CountMined(v))
  }

  /** The votes for the listed blocks. */
  ghost function Cast(e: Electorate, blocks: seq<Hash>): nat {
    SumOver(blocks, CountVotesFor(e.index))
  }

  /** For each of these votes, the voter blocks of its chain mined since. */
  ghost function Mined(e: Electorate, blocks: seq<Hash>): nat {
    SumOver(blocks, CountMinedFor(e.voters, e.index))
  }

  /** How many blocks the adversary mines while the others mine as many as they did, on average,
      since a vote. */
  ghost function AdversaryBlocks(e: Electorate, blocks: seq<Hash>): real
    requires e.estimator.ratio < 0.5 && Cast(e, blocks) > 0
  {
    ShareOf(e.estimator.ratio, Mined(e, blocks), Cast(e, blocks))
  }

  /** How many blocks of its main chain a vote is deep, its own included. */
  ghost function Burial(best: seq<(Hash, nat)>, x: Vote): nat {
    if x.0 < |best| && x.1 <= best[x.0].1 then best[x.0].1 - x.1 + 1 else 0
  }

  ghost function Burials(best: seq<(Hash, nat)>, votes: seq<Vote>): seq<nat> {
    seq(|votes|, i requires 0 <= i < |votes| => Burial(best, votes[i]))
  }

  /** The blocks of a level, each with the votes it keeps with some confidence. */
  ghost function PollAt(e: Electorate, blocks: seq<Hash>, quantile: real): Poll
    requires e.estimator.ratio < 0.5 && Cast(e, blocks) > 0
  {
    var mean := AdversaryBlocks(e, blocks);
    Poll(blocks,
         seq(|blocks|, i requires 0 <= i < |blocks| =>
           Confident(e.estimator, Removals(e.estimator, mean, Burials(e.voterBest, Lookup(e.index, blocks[i]))), quantile)),
         |e.voterBest| as real)
  }

  /** More than three fifths of the chains voted on the level, and the block has the most votes of
      every final split that leaves each block the votes it keeps. */
  ghost predicate WinsAt(e: Electorate, blocks: seq<Hash>, quantile: real, i: nat)
    requires e.estimator.ratio < 0.5 && i < |blocks|
  {
    && 5 * Cast(e, blocks) > 3 * |e.voterBest|
    && var p := PollAt(e, blocks, quantile);
       forall split, unseen | p.FinalSplit(split, unseen) :: p.Wins(i, split, unseen)
  }

  /** The leader is the block of the level that wins, if there is one. */
  ghost predicate Judged(e: Electorate, level: nat, quantile: real, leader: Option<Hash>)
    requires e.estimator.ratio < 0.5
  {
    && level in e.proposers.byLevel
    && var blocks := e.proposers.byLevel[level];
       && (leader.Some? ==> leader.value in blocks)
       && forall i | 0 <= i < |blocks| :: leader == Some(blocks[i]) <==> WinsAt(e, blocks, quantile, i)
  }

  lemma {:induction false} CastIsCount(e: Electorate, blocks: seq<Hash>)
    requires IndexInRange(e.index, e.voterBest)
    ensures Cast(e, blocks) == VoteCount(DepthLists(e.index, e.voterBest, blocks))
  {
    if blocks != [] {
      CastIsCount(e, Init(blocks));
      SnocInit(DepthLists(e.index, e.voterBest, Init(blocks)), DepthsOf(Lookup(e.index, Last(blocks)), e.voterBest));
    }
  }

  lemma MinedIsBetween(v: Voters, best: seq<(Hash, nat)>, x: Vote)
    requires Linked(v) && BestVoters(v, best) && VoteInRange(x, best)
    ensures MinedSince(v, x.0, x.1) == BlocksBetween(v, x.0, x.1, best[x.0].1 + 1)
  {
    forall h | h in MinedSince(v, x.0, x.1)
      ensures h in BlocksBetween(v, x.0, x.1, best[x.0].1 + 1)
    {
      assert NoHigher(v, best, h);
    }
  }

  lemma {:induction false} MinedForVotes(v: Voters, best: seq<(Hash, nat)>, votes: seq<Vote>)
    requires Linked(v) && BestVoters(v, best) && VotesInRange(votes, best)
    ensures SumOver(votes, CountMined(v)) == BlocksSince(v, votes, best)
  {
    hide MinedSince, BlocksBetween, BestVoters, Linked;
    if votes != [] {
      MinedForVotes(v, best, Init(votes));
      assert VoteInRange(Last(votes), best);
      MinedIsBetween(v, best, Last(votes));
    }
  }

  lemma {:induction false} MinedIsTotal(e: Electorate, blocks: seq<Hash>)
    requires Linked(e.voters) && BestVoters(e.voters, e.voterBest) && IndexInRange(e.index, e.voterBest)
    ensures Mined(e, blocks) == TotalSince(e.voters, e.index, e.voterBest, blocks)
  {
    hide BestVoters, Linked, VotesInRange;
    if blocks != [] {
      MinedIsTotal(e, Init(blocks));
      assert VotesInRange(Lookup(e.index, Last(blocks)), e.voterBest);
      MinedForVotes(e.voters, e.voterBest, Lookup(e.index, Last(blocks)));
    }
  }

  lemma {:induction false} BurialsAreDepths(best: seq<(Hash, nat)>, votes: seq<Vote>)
    requires VotesInRange(votes, best)
    ensures Burials(best, votes) == DepthsOf(votes, best)
  {
    if votes != [] {
      BurialsAreDepths(best, Init(votes));
      assert VoteInRange(Last(votes), best);
      var all := Burials(best, votes);
      assert Init(all) == Burials(best, Init(votes)) && Last(all) == Burial(best, Last(votes));
      assert all == Init(all) + [Last(all)];
    }
  }

  lemma {:induction false} DepthListAt(index: map<Hash, seq<Vote>>, best: seq<(Hash, nat)>, blocks: seq<Hash>, i: nat)
    requires IndexInRange(index, best) && i < |blocks|
    ensures VotesInRange(Lookup(index, blocks[i]), best)
    ensures DepthLists(index, best, blocks)[i] == DepthsOf(Lookup(index, blocks[i]), best)
  {
    hide VotesInRange, DepthsOf;
    if i < |blocks| - 1 {
      DepthListAt(index, best, Init(blocks), i);
    }
  }

  /** The tally that the code makes leads to the same poll. */
  lemma PollsAgree(e: Electorate, blocks: seq<Hash>, quantile: real)
    requires Linked(e.voters) && BestVoters(e.voters, e.voterBest) && IndexInRange(e.index, e.voterBest)
    requires e.estimator.ratio < 0.5 && Cast(e, blocks) > 0
    ensures var t := TallyOf(e.voters, e.index, e.voterBest, blocks);
            |t.blocks| == |t.depths| && VoteCount(t.depths) > 0 && KeptVotes(t, e.estimator, quantile) == PollAt(e, blocks, quantile)
  {
    hide Linked, BestVoters, IndexInRange, Cast, Mined, TotalSince, Confident, Removals, Burials, DepthLists, ShareOf;
    CastIsCount(e, blocks);
    MinedIsTotal(e, blocks);
    var t := TallyOf(e.voters, e.index, e.voterBest, blocks);
    hide AdversaryBlocks, VoteCount;
    var p, q := KeptVotes(t, e.estimator, quantile), PollAt(e, blocks, quantile);
    forall i | 0 <= i < |blocks|
      ensures p.bounds[i] == q.bounds[i]
    {
      DepthListAt(e.index, e.voterBest, blocks, i);
      BurialsAreDepths(e.voterBest, Lookup(e.index, blocks[i]));
    }
    assert p.bounds == q.bounds;
  }

  /** What `proposer_leader` returns for a level, at any quantile. */
  lemma LeaderIsJudged(e: Electorate, genesis: Hash, best: nat, level: nat, quantile: real)
    requires ValidElectorate(e, genesis, best) && level <= best && quantile >= 0.0
    ensures e.estimator.ratio < 0.5 && level in e.proposers.byLevel && Linked(e.voters) && IndexInRange(e.index, e.voterBest)
    ensures var t := TallyOf(e.voters, e.index, e.voterBest, e.proposers.byLevel[level]);
            t.Valid() && Judged(e, level, quantile, ElectedLeader(t, e.estimator, quantile))
  {
    ElectorateParts(e, genesis, best);
    LevelTally(e, genesis, best, level);
    hide ValidElectorate, ValidEstimator, Linked, BestVoters, IndexInRange, ElectedLeader, TallyOf, Cast, PollAt, Countable, VoteCount;
    var blocks := e.proposers.byLevel[level];
    var t := TallyOf(e.voters, e.index, e.voterBest, blocks);
    ElectedIsListed(t, e.estimator, quantile);
    TallyParts(e, blocks);
    hide WinsAt;
    forall i | 0 <= i < |blocks|
      ensures ElectedLeader(t, e.estimator, quantile) == Some(blocks[i]) <==> WinsAt(e, blocks, quantile, i)
    {
      ElectedIffWins(e, blocks, quantile, i);
    }
  }

  lemma ElectedIffWins(e: Electorate, blocks: seq<Hash>, quantile: real, i: nat)
    requires Linked(e.voters) && BestVoters(e.voters, e.voterBest) && IndexInRange(e.index, e.voterBest)
    requires ValidEstimator(e.estimator) && quantile >= 0.0 && i < |blocks| && TallyOf(e.voters, e.index, e.voterBest, blocks).Valid()
    ensures var t := TallyOf(e.voters, e.index, e.voterBest, blocks);
            ElectedLeader(t, e.estimator, quantile) == Some(blocks[i]) <==> WinsAt(e, blocks, quantile, i)
  {
    hide Linked, BestVoters, IndexInRange, ElectedLeader, TallyOf, Cast, PollAt;
    TallyParts(e, blocks);
    ElectedIsWinner(TallyOf(e.voters, e.index, e.voterBest, blocks), e.estimator, quantile);
    if Cast(e, blocks) > 0 {
      PollsAgree(e, blocks, quantile);
    }
  }

  lemma ElectorateParts(e: Electorate, genesis: Hash, best: nat)
    requires ValidElectorate(e, genesis, best)
    ensures ValidEstimator(e.estimator) && Linked(e.voters) && BestVoters(e.voters, e.voterBest)
  {
    hide TipsOk, IndexExact, Linked, BestVoters, OneRoot, CountsExact;
  }

  lemma TallyParts(e: Electorate, blocks: seq<Hash>)
    requires Linked(e.voters) && IndexInRange(e.index, e.voterBest)
    ensures var t := TallyOf(e.voters, e.index, e.voterBest, blocks);
            t.blocks == blocks && t.voterChains == |e.voterBest| && VoteCount(t.depths) == Cast(e, blocks)
  {
    hide Linked, Cast, DepthLists, TotalSince;
    CastIsCount(e, blocks);
  }

  /** A level that has a leader is judged by the quantile against deconfirmation, and one that has
      none by the quantile for confirmation. */
  lemma ElectIsJudged(e: Electorate, genesis: Hash, best: nat, level: nat, hasLeader: bool)
    requires ValidElectorate(e, genesis, best) && level <= best
    ensures e.estimator.ratio < 0.5
    ensures Judged(e, level, if hasLeader then e.deconfirm else e.confirm, Elect(e, genesis, best, level, hasLeader))
  {
    hide Judged, ElectedLeader, ForestOk, TipsOk, IndexExact, ValidEstimator;
    LeaderIsJudged(e, genesis, best, level, if hasLeader then e.deconfirm else e.confirm);
  }
}
