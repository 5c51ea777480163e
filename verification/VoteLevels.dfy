/** Which proposer levels a voter chain has voted on, src/validation/voter_block.rs. */
module VoteLevels {
  import opened Prelude
  import opened VoterTrees

  /** A block above level 0 votes once for every level after its parent's voted level, in order,
      up to its own; the genesis block votes for the one block of level 0. */
  ghost predicate VotesInOrder(v: Voters, levels: map<Hash, nat>)
    requires Linked(v)
  {
    forall h | h in v.level :: if v.level[h] == 0 then GenesisVote(v, levels, h) else NextVotes(v, levels, h)
  }

  ghost predicate GenesisVote(v: Voters, levels: map<Hash, nat>, h: Hash)
    requires h in v.votes && h in v.votedLevel
  {
    v.votedLevel[h] == 0 && |v.votes[h]| == 1 && v.votes[h][0] in levels && levels[v.votes[h][0]] == 0
  }

  ghost predicate NextVotes(v: Voters, levels: map<Hash, nat>, h: Hash)
    requires h in v.votes && h in v.votedLevel && h in v.parent && v.parent[h] in v.votedLevel
  {
    CoversLevels(v.votes[h], levels, v.votedLevel[v.parent[h]], v.votedLevel[h])
  }

  /** `votes` are blocks of the levels `start + 1` to `end`, one each, in order. */
  ghost predicate CoversLevels(votes: seq<Hash>, levels: map<Hash, nat>, start: nat, end: nat) {
    && start <= end && |votes| == end - start
    && forall i | 0 <= i < |votes| :: votes[i] in levels && levels[votes[i]] == start + 1 + i
  }

  /** All votes on the path from the genesis of the chain to `h`. */
  ghost function PathVotes(v: Voters, h: Hash): seq<Hash>
    requires Linked(v) && h in v.level
    decreases v.level[h]
  {
    if v.level[h] == 0 then v.votes[h] else PathVotes(v, v.parent[h]) + v.votes[h]
  }

  /** Along the path to any voter block the votes name exactly one proposer block at each level
      from 0 to the voted level, in order. */
  lemma {:induction false} OneVotePerLevel(v: Voters, levels: map<Hash, nat>, h: Hash)
    requires Linked(v) && VotesInOrder(v, levels) && h in v.level
    ensures |PathVotes(v, h)| == v.votedLevel[h] + 1
    ensures forall i | 0 <= i <= v.votedLevel[h] :: PathVotes(v, h)[i] in levels && levels[PathVotes(v, h)[i]] == i
    decreases v.level[h]
  {
    if v.level[h] > 0 {
      assert NextVotes(v, levels, h);
      OneVotePerLevel(v, levels, v.parent[h]);
      hide VotesInOrder, Linked;
      NextLevels(PathVotes(v, v.parent[h]), v.votes[h], levels, v.votedLevel[v.parent[h]], v.votedLevel[h]);
    } else {
      assert GenesisVote(v, levels, h);
    }
  }

  lemma NextLevels(path: seq<Hash>, votes: seq<Hash>, levels: map<Hash, nat>, start: nat, end: nat)
    requires |path| == start + 1 && forall i | 0 <= i <= start :: path[i] in levels && levels[path[i]] == i
    requires CoversLevels(votes, levels, start, end)
    ensures |path + votes| == end + 1
    ensures forall i | 0 <= i <= end :: (path + votes)[i] in levels && levels[(path + votes)[i]] == i
  {
  }

  lemma VotesAreDistinct(v: Voters, levels: map<Hash, nat>)
    requires Linked(v) && VotesInOrder(v, levels)
    ensures VotesDistinct(v)
  {
    forall h | h in v.votes
      ensures NoDup(v.votes[h])
    {
      if v.level[h] > 0 {
        assert NextVotes(v, levels, h);
      } else {
        assert GenesisVote(v, levels, h);
      }
    }
  }

  /** The levels voted by the ancestors at and above `l` lie apart. */
  lemma {:induction false} VotedLevelGrows(v: Voters, levels: map<Hash, nat>, h: Hash, l: nat)
    requires Linked(v) && VotesInOrder(v, levels) && h in v.level && l <= v.level[h]
    ensures v.votedLevel[Ancestor(v, h, l)] <= v.votedLevel[h]
    decreases v.level[h]
  {
    if l < v.level[h] {
      VotedLevelGrows(v, levels, v.parent[h], l);
      assert NextVotes(v, levels, h);
    }
  }

  lemma VotedLevelOfVote(v: Voters, levels: map<Hash, nat>, h: Hash, p: Hash)
    requires Linked(v) && VotesInOrder(v, levels) && h in v.level && p in v.votes[h]
    ensures p in levels && levels[p] <= v.votedLevel[h]
    ensures v.level[h] > 0 ==> v.votedLevel[v.parent[h]] < levels[p]
    ensures v.level[h] == 0 ==> levels[p] == 0
  {
    if v.level[h] > 0 {
      assert NextVotes(v, levels, h);
    } else {
      assert GenesisVote(v, levels, h);
    }
  }

  lemma LaterVotesAreHigher(v: Voters, levels: map<Hash, nat>, tip: Hash, p: Hash, l: nat, p': Hash, l': nat)
    requires Linked(v) && VotesInOrder(v, levels) && tip in v.level
    requires VotesFor(v, tip, p, l) && VotesFor(v, tip, p', l') && l < l'
    ensures p in levels && p' in levels && levels[p] < levels[p']
  {
    var a := Ancestor(v, tip, l');
    AncestorOfAncestor(v, tip, l', l);
    VotedLevelGrows(v, levels, v.parent[a], l);
    VotedLevelOfVote(v, levels, Ancestor(v, tip, l), p);
    VotedLevelOfVote(v, levels, a, p');
  }

  lemma SameBlockVotesDiffer(v: Voters, levels: map<Hash, nat>, h: Hash, p: Hash, p': Hash)
    requires Linked(v) && VotesInOrder(v, levels) && h in v.level && p in v.votes[h] && p' in v.votes[h]
    ensures p in levels && p' in levels
    ensures levels[p] == levels[p'] ==> p == p'
  {
    if v.level[h] > 0 {
      assert NextVotes(v, levels, h);
    } else {
      assert GenesisVote(v, levels, h);
    }
  }

  /** A main chain votes at most once on each proposer level. */
  lemma AtMostOneVote(v: Voters, levels: map<Hash, nat>, tip: Hash, p: Hash, l: nat, p': Hash, l': nat)
    requires Linked(v) && VotesInOrder(v, levels) && tip in v.level
    requires VotesFor(v, tip, p, l) && VotesFor(v, tip, p', l')
    ensures p in levels && p' in levels
    ensures levels[p] == levels[p'] ==> p == p' && l == l'
  {
    if l < l' {
      LaterVotesAreHigher(v, levels, tip, p, l, p', l');
    } else if l' < l {
      LaterVotesAreHigher(v, levels, tip, p', l', p, l);
    } else {
      SameBlockVotesDiffer(v, levels, Ancestor(v, tip, l), p, p');
    }
  }

  /** The votes that a change of main chain touches are all above proposer level 0. */
  lemma ChangedVotesAreAboveGenesis(v: Voters, levels: map<Hash, nat>, h: Hash, m: nat, p: Hash, l: nat)
    requires Linked(v) && VotesInOrder(v, levels) && h in v.level && m <= v.level[h]
    requires (p, l) in VotesDown(v, h, m)
    ensures p in levels && levels[p] >= 1
  {
    VotesDownMember(v, h, m, p, l);
    VotedLevelOfVote(v, levels, Ancestor(v, h, l), p);
  }
}
