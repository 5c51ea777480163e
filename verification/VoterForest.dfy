/** What `insert_block` keeps of the voter trees. */
module VoterForest {
  import opened Prelude
  import opened VoterTrees
  import opened VoteLevels
  import opened VoteIndex

  ghost predicate SameBlock(v: Voters, v': Voters, h: Hash)
    requires Linked(v) && h in v.level
  {
    && h in v'.level && v'.level[h] == v.level[h]
    && h in v'.chain && v'.chain[h] == v.chain[h]
    && h in v'.votes && v'.votes[h] == v.votes[h]
    && h in v'.votedLevel && v'.votedLevel[h] == v.votedLevel[h]
    && (v.level[h] > 0 ==> h in v'.parent && h in v.parent && v'.parent[h] == v.parent[h])
  }

  /** Later insertions keep every voter block as it is. */
  ghost predicate VotersExtend(v: Voters, v': Voters)
    requires Linked(v)
  {
    forall h | h in v.level :: SameBlock(v, v', h)
  }

  lemma {:induction false} AncestorStable(v: Voters, v': Voters, h: Hash, l: nat)
    requires Linked(v) && Linked(v') && VotersExtend(v, v') && h in v.level && l <= v.level[h]
    ensures Ancestor(v', h, l) == Ancestor(v, h, l)
    decreases v.level[h]
  {
    assert SameBlock(v, v', h);
    if l < v.level[h] {
      assert HangsBelowParent(v, h);
      AncestorStable(v, v', v.parent[h], l);
    }
  }

  lemma VotesForStable(v: Voters, v': Voters, tip: Hash, p: Hash, l: nat)
    requires Linked(v) && Linked(v') && VotersExtend(v, v') && tip in v.level
    ensures VotesFor(v', tip, p, l) <==> VotesFor(v, tip, p, l)
  {
    assert SameBlock(v, v', tip);
    if l <= v.level[tip] {
      AncestorStable(v, v', tip, l);
      assert SameBlock(v, v', Ancestor(v, tip, l));
    }
  }

  ghost predicate TipsKnown(v: Voters, tips: seq<Hash>) {
    forall t | t in tips :: t in v.level
  }

  /** The vote index does not depend on blocks off the main chains. */
  lemma IndexStable(index: map<Hash, seq<Vote>>, v: Voters, v': Voters, tips: seq<Hash>)
    requires Linked(v) && Linked(v') && VotersExtend(v, v') && TipsKnown(v, tips) && IndexExact(index, v, tips)
    ensures TipsKnown(v', tips) && IndexExact(index, v', tips)
  {
    TipsStable(v, v', tips);
    hide VotesFor, NoDuplicates, Linked, VotersExtend;
    forall p: Hash, c: nat, l: nat | c < |tips|
      ensures VotesFor(v', tips[c], p, l) <==> VotesFor(v, tips[c], p, l)
    {
      VotesForStable(v, v', tips[c], p, l);
    }
  }

  lemma TipsStable(v: Voters, v': Voters, tips: seq<Hash>)
    requires Linked(v) && VotersExtend(v, v') && TipsKnown(v, tips)
    ensures TipsKnown(v', tips)
  {
    assert forall t | t in tips :: SameBlock(v, v', t);
  }

  /** The best block of every chain: a block of that chain, as high as any. */
  ghost predicate BestVoters(v: Voters, best: seq<(Hash, nat)>)
    requires Linked(v)
  {
    && (forall c | 0 <= c < |best| :: BestOfChain(v, best[c], c))
    && forall h | h in v.level :: NoHigher(v, best, h)
  }

  ghost predicate BestOfChain(v: Voters, b: (Hash, nat), chain: nat)
    requires Linked(v)
  {
    b.0 in v.level && v.chain[b.0] == chain && v.level[b.0] == b.1
  }

  /** Block `q` is on a known chain and no higher than its best block. */
  ghost predicate NoHigher(v: Voters, best: seq<(Hash, nat)>, q: Hash)
    requires q in v.level && q in v.chain
  {
    v.chain[q] < |best| && v.level[q] <= best[v.chain[q]].1
  }

  /** The blocks of one level of one tree. */
  ghost function LevelSet(v: Voters, chain: nat, level: nat): set<Hash>
    requires Linked(v)
  {
    set h | h in v.level && v.chain[h] == chain && v.level[h] == level
  }

  function CountAt(v: Voters, chain: nat, level: nat): nat {
    if (chain, level) in v.levelCount then v.levelCount[(chain, level)] else 0
  }

  ghost predicate CountsExact(v: Voters)
    requires Linked(v)
  {
    forall c: nat, l: nat :: CountAt(v, c, l) == |LevelSet(v, c, l)|
  }

  /** Every level up to the best one has a count, since the best block has an ancestor there. */
  lemma CountedUpToBest(v: Voters, best: seq<(Hash, nat)>, c: nat, l: nat)
    requires Linked(v) && BestVoters(v, best) && CountsExact(v) && c < |best| && l <= best[c].1
    ensures (c, l) in v.levelCount && v.levelCount[(c, l)] >= 1
  {
    assert BestOfChain(v, best[c], c);
    var a := Ancestor(v, best[c].0, l);
    assert a in LevelSet(v, c, l);
    assert CountAt(v, c, l) == |LevelSet(v, c, l)|;
  }

  ghost predicate ForestOk(v: Voters, levels: map<Hash, nat>, best: seq<(Hash, nat)>) {
    && Linked(v) && OneRoot(v) && VotesInOrder(v, levels)
    && BestVoters(v, best) && CountsExact(v)
  }

  /** A larger proposer graph changes nothing about votes already cast. */
  lemma VotesInOrderStable(v: Voters, levels: map<Hash, nat>, levels': map<Hash, nat>)
    requires Linked(v) && VotesInOrder(v, levels)
    requires forall p | p in levels :: p in levels' && levels'[p] == levels[p]
    ensures VotesInOrder(v, levels')
  {
    forall h | h in v.level
      ensures if v.level[h] == 0 then GenesisVote(v, levels', h) else NextVotes(v, levels', h)
    {
      if v.level[h] == 0 {
        assert GenesisVote(v, levels, h);
      } else {
        assert NextVotes(v, levels, h);
      }
    }
  }

  /** What `new` writes for the genesis block of a chain. */
  function AddGenesis(v: Voters, h: Hash, chain: nat, proposerGenesis: Hash): Voters {
    Voters(v.level[h := 0], v.chain[h := chain], v.parent, v.votes[h := [proposerGenesis]], v.votedLevel[h := 0],
           v.levelCount[(chain, 0) := CountAt(v, chain, 0) + 1])
  }

  /** What `insert_block` writes for a voter block. */
  function AddVoter(v: Voters, h: Hash, parent: Hash, votes: seq<Hash>, voted: nat): Voters
    requires parent in v.level && parent in v.chain
  {
    var level, chain := v.level[parent] + 1, v.chain[parent];
    Voters(v.level[h := level], v.chain[h := chain], v.parent[h := parent], v.votes[h := votes], v.votedLevel[h := voted],
           v.levelCount[(chain, level) := CountAt(v, chain, level) + 1])
  }

  /** `v'` is `v` and the block `h`. */
  ghost predicate OneMore(v: Voters, v': Voters, h: Hash)
    requires Linked(v)
  {
    && h !in v.level
    && v'.level.Keys == v.level.Keys + {h} && v'.chain.Keys == v'.level.Keys
    && v'.votes.Keys == v'.level.Keys && v'.votedLevel.Keys == v'.level.Keys
    && VotersExtend(v, v')
  }

  /** The count of the new block's level goes up by one. */
  ghost predicate CountsOneMore(v: Voters, v': Voters, chain: nat, level: nat) {
    v'.levelCount == v.levelCount[(chain, level) := CountAt(v, chain, level) + 1]
  }

  lemma AddVoterIsOneMore(v: Voters, h: Hash, parent: Hash, votes: seq<Hash>, voted: nat)
    requires Linked(v) && h !in v.level && parent in v.level
    ensures var v' := AddVoter(v, h, parent, votes, voted);
            && OneMore(v, v', h) && HangsBelowParent(v', h)
            && v'.level[h] == v.level[parent] + 1 && v'.chain[h] == v.chain[parent] && v'.parent[h] == parent
            && v'.votes[h] == votes && v'.votedLevel[h] == voted && v'.votedLevel[parent] == v.votedLevel[parent]
            && CountsOneMore(v, v', v'.chain[h], v'.level[h])
  {
    var v' := AddVoter(v, h, parent, votes, voted);
    forall q | q in v.level
      ensures SameBlock(v, v', q)
    {
      assert v.level[q] > 0 ==> HangsBelowParent(v, q);
    }
  }

  lemma AddGenesisIsOneMore(v: Voters, h: Hash, chain: nat, proposerGenesis: Hash)
    requires Linked(v) && h !in v.level
    ensures var v' := AddGenesis(v, h, chain, proposerGenesis);
            && OneMore(v, v', h) && v'.level[h] == 0 && v'.chain[h] == chain
            && v'.votes[h] == [proposerGenesis] && v'.votedLevel[h] == 0
            && CountsOneMore(v, v', chain, 0)
  {
    var v' := AddGenesis(v, h, chain, proposerGenesis);
    forall q | q in v.level
      ensures SameBlock(v, v', q)
    {
      assert v.level[q] > 0 ==> HangsBelowParent(v, q);
    }
  }

  lemma OneMoreLinked(v: Voters, v': Voters, h: Hash)
    requires Linked(v) && OneMore(v, v', h) && (v'.level[h] > 0 ==> HangsBelowParent(v', h))
    ensures Linked(v')
  {
    forall q | q in v'.level && v'.level[q] > 0
      ensures HangsBelowParent(v', q)
    {
      if q != h {
        assert SameBlock(v, v', q);
        assert HangsBelowParent(v, q);
        assert SameBlock(v, v', v.parent[q]);
      }
    }
  }

  lemma Kept(v: Voters, v': Voters, h: Hash, q: Hash)
    requires Linked(v) && OneMore(v, v', h) && q in v'.level && q != h
    ensures q in v.level && SameBlock(v, v', q)
    ensures v.level[q] > 0 ==> HangsBelowParent(v, q) && SameBlock(v, v', v.parent[q])
  {
    assert v.level[q] > 0 ==> HangsBelowParent(v, q);
  }

  lemma OneMoreRoot(v: Voters, v': Voters, h: Hash)
    requires Linked(v) && Linked(v') && OneMore(v, v', h) && OneRoot(v)
    requires v'.level[h] == 0 ==> forall q | q in v.level :: v.chain[q] != v'.chain[h]
    ensures OneRoot(v')
  {
    hide OneMore, HangsBelowParent;
    forall a, b | a in v'.level && b in v'.level && v'.level[a] == 0 && v'.level[b] == 0 && v'.chain[a] == v'.chain[b]
      ensures a == b
    {
      if a != h { Kept(v, v', h, a); }
      if b != h { Kept(v, v', h, b); }
    }
  }

  ghost predicate VotesOk(v: Voters, levels: map<Hash, nat>, h: Hash)
    requires Linked(v) && h in v.level
  {
    if v.level[h] == 0 then GenesisVote(v, levels, h) else NextVotes(v, levels, h)
  }

  lemma VotesKept(v: Voters, v': Voters, levels: map<Hash, nat>, h: Hash, q: Hash)
    requires Linked(v) && Linked(v') && OneMore(v, v', h) && q in v'.level && q != h
    requires q in v.level ==> VotesOk(v, levels, q)
    ensures VotesOk(v', levels, q)
  {
    Kept(v, v', h, q);
    hide OneMore, CoversLevels;
  }

  lemma OneMoreVotes(v: Voters, v': Voters, levels: map<Hash, nat>, h: Hash)
    requires Linked(v) && Linked(v') && OneMore(v, v', h) && VotesInOrder(v, levels) && VotesOk(v', levels, h)
    ensures VotesInOrder(v', levels)
  {
    hide OneMore, GenesisVote, NextVotes;
    forall q | q in v'.level
      ensures VotesOk(v', levels, q)
    {
      if q != h {
        VotesKept(v, v', levels, h, q);
      }
    }
  }

  /** `voter_best` after a block of level `level` was inserted. */
  function UpdateBest(best: seq<(Hash, nat)>, chain: nat, h: Hash, level: nat): seq<(Hash, nat)>
    requires chain < |best|
  {
    if level > best[chain].1 then best[chain := (h, level)] else best
  }

  lemma NoHigherKept(v: Voters, v': Voters, best: seq<(Hash, nat)>, best': seq<(Hash, nat)>, h: Hash, q: Hash)
    requires Linked(v) && Linked(v') && OneMore(v, v', h) && q in v'.level && q != h
    requires BestVoters(v, best)
    requires |best| <= |best'| && forall c | 0 <= c < |best| :: best[c].1 <= best'[c].1
    ensures NoHigher(v', best', q)
  {
    Kept(v, v', h, q);
    assert NoHigher(v, best, q);
  }

  lemma BestKept(v: Voters, v': Voters, best: seq<(Hash, nat)>, h: Hash, c: nat)
    requires Linked(v) && Linked(v') && OneMore(v, v', h) && BestVoters(v, best) && c < |best|
    ensures BestOfChain(v', best[c], c)
  {
    assert BestOfChain(v, best[c], c);
    assert SameBlock(v, v', best[c].0);
  }

  lemma OneMoreBest(v: Voters, v': Voters, best: seq<(Hash, nat)>, h: Hash)
    requires Linked(v) && Linked(v') && OneMore(v, v', h) && BestVoters(v, best) && v'.chain[h] < |best|
    ensures BestVoters(v', UpdateBest(best, v'.chain[h], h, v'.level[h]))
  {
    BestFrom(v, v', best, UpdateBest(best, v'.chain[h], h, v'.level[h]), h);
  }

  lemma OneMoreChain(v: Voters, v': Voters, best: seq<(Hash, nat)>, h: Hash)
    requires Linked(v) && Linked(v') && OneMore(v, v', h) && BestVoters(v, best)
    requires v'.chain[h] == |best| && v'.level[h] == 0
    ensures BestVoters(v', best + [(h, 0)])
  {
    BestFrom(v, v', best, best + [(h, 0)], h);
  }

  /** The best blocks stay, except that the new block may be the best of its chain. */
  lemma BestFrom(v: Voters, v': Voters, best: seq<(Hash, nat)>, best': seq<(Hash, nat)>, h: Hash)
    requires Linked(v) && Linked(v') && OneMore(v, v', h) && BestVoters(v, best)
    requires h in v'.level && |best| <= |best'| && v'.chain[h] < |best'| && v'.level[h] <= best'[v'.chain[h]].1
    requires forall c | 0 <= c < |best'| ::
               if c < |best| && best'[c] == best[c] then true
               else c == v'.chain[h] && best'[c] == (h, v'.level[h]) && (c < |best| ==> best[c].1 <= v'.level[h])
    ensures BestVoters(v', best')
  {
    hide BestVoters, OneMore, BestOfChain, NoHigher, HangsBelowParent;
    forall c | 0 <= c < |best'|
      ensures BestOfChain(v', best'[c], c)
    {
      if c < |best| && best'[c] == best[c] {
        BestKept(v, v', best, h, c);
      } else {
        NewBest(v', h);
      }
    }
    forall q | q in v'.level
      ensures NoHigher(v', best', q)
    {
      if q != h {
        NoHigherKept(v, v', best, best', h, q);
      } else {
        NewNoHigher(v', best', h);
      }
    }
    BestIntro(v', best');
  }

  lemma NewBest(v: Voters, h: Hash)
    requires Linked(v) && h in v.level
    ensures BestOfChain(v, (h, v.level[h]), v.chain[h])
  {
  }

  lemma NewNoHigher(v: Voters, best: seq<(Hash, nat)>, h: Hash)
    requires Linked(v) && h in v.level && v.chain[h] < |best| && v.level[h] <= best[v.chain[h]].1
    ensures NoHigher(v, best, h)
  {
  }

  lemma BestIntro(v: Voters, best: seq<(Hash, nat)>)
    requires Linked(v)
    requires forall c | 0 <= c < |best| :: BestOfChain(v, best[c], c)
    requires forall h | h in v.level :: NoHigher(v, best, h)
    ensures BestVoters(v, best)
  {
  }

  lemma OneMoreLevelSet(v: Voters, v': Voters, h: Hash, c: nat, l: nat)
    requires Linked(v) && Linked(v') && OneMore(v, v', h)
    ensures LevelSet(v', c, l) == LevelSet(v, c, l) + (if c == v'.chain[h] && l == v'.level[h] then {h} else {})
    ensures h !in LevelSet(v, c, l)
  {
    assert h in v'.chain && h in v'.level && h !in v.level;
    hide LevelSet, OneMore, Linked;
    forall q: Hash
      ensures q in LevelSet(v', c, l) <==> q in LevelSet(v, c, l) || (q == h && c == v'.chain[h] && l == v'.level[h])
      ensures q == h ==> q !in LevelSet(v, c, l)
    {
      InLevelSet(v, v', h, c, l, q);
    }
  }

  lemma InLevelSet(v: Voters, v': Voters, h: Hash, c: nat, l: nat, q: Hash)
    requires Linked(v) && Linked(v') && OneMore(v, v', h)
    ensures q in LevelSet(v', c, l) <==> q in LevelSet(v, c, l) || (q == h && c == v'.chain[h] && l == v'.level[h])
    ensures q == h ==> q !in LevelSet(v, c, l)
  {
    if q in v'.level && q != h {
      Kept(v, v', h, q);
    }
  }

  lemma OneMoreCounts(v: Voters, v': Voters, h: Hash)
    requires Linked(v) && Linked(v') && OneMore(v, v', h) && CountsExact(v)
    requires CountsOneMore(v, v', v'.chain[h], v'.level[h])
    ensures CountsExact(v')
  {
    hide OneMore, Linked, LevelSet;
    forall c: nat, l: nat
      ensures CountAt(v', c, l) == |LevelSet(v', c, l)|
    {
      assert CountAt(v, c, l) == |LevelSet(v, c, l)|;
      OneMoreLevelSet(v, v', h, c, l);
    }
  }

  lemma AddVoterOk(v: Voters, levels: map<Hash, nat>, best: seq<(Hash, nat)>, h: Hash, parent: Hash, votes: seq<Hash>, voted: nat)
    requires ForestOk(v, levels, best) && h !in v.level && parent in v.level
    requires CoversLevels(votes, levels, v.votedLevel[parent], voted)
    ensures var v' := AddVoter(v, h, parent, votes, voted);
            && VotersExtend(v, v') && v.chain[parent] < |best|
            && ForestOk(v', levels, UpdateBest(best, v.chain[parent], h, v.level[parent] + 1))
  {
    var v' := AddVoter(v, h, parent, votes, voted);
    assert NoHigher(v, best, parent);
    AddVoterIsOneMore(v, h, parent, votes, voted);
    assert NextVotes(v', levels, h);
    hide AddVoter, CoversLevels;
    GrowForest(v, v', levels, best, h);
  }

  lemma GrowForest(v: Voters, v': Voters, levels: map<Hash, nat>, best: seq<(Hash, nat)>, h: Hash)
    requires ForestOk(v, levels, best) && OneMore(v, v', h) && v'.level[h] > 0 && HangsBelowParent(v', h)
    requires v'.parent[h] in v'.votedLevel && NextVotes(v', levels, h)
    requires CountsOneMore(v, v', v'.chain[h], v'.level[h]) && v'.chain[h] < |best|
    ensures VotersExtend(v, v') && ForestOk(v', levels, UpdateBest(best, v'.chain[h], h, v'.level[h]))
  {
    hide OneRoot, VotesInOrder, CountsExact, VotersExtend, BestVoters, NextVotes, HangsBelowParent, CountsOneMore;
    OneMoreLinked(v, v', h);
    OneMoreRoot(v, v', h);
    OneMoreBest(v, v', best, h);
    OneMoreVotes(v, v', levels, h);
    OneMoreCounts(v, v', h);
  }

  lemma AddGenesisOk(v: Voters, levels: map<Hash, nat>, best: seq<(Hash, nat)>, h: Hash, proposerGenesis: Hash)
    requires ForestOk(v, levels, best) && h !in v.level
    requires proposerGenesis in levels && levels[proposerGenesis] == 0
    ensures var v' := AddGenesis(v, h, |best|, proposerGenesis);
            VotersExtend(v, v') && ForestOk(v', levels, best + [(h, 0)])
  {
    var v' := AddGenesis(v, h, |best|, proposerGenesis);
    AddGenesisIsOneMore(v, h, |best|, proposerGenesis);
    hide AddGenesis;
    PlantTree(v, v', levels, best, h);
  }

  lemma ChainIsNew(v: Voters, best: seq<(Hash, nat)>)
    requires Linked(v) && BestVoters(v, best)
    ensures forall q | q in v.level :: v.chain[q] != |best|
  {
    assert forall q | q in v.level :: NoHigher(v, best, q);
  }

  lemma PlantTree(v: Voters, v': Voters, levels: map<Hash, nat>, best: seq<(Hash, nat)>, h: Hash)
    requires ForestOk(v, levels, best) && OneMore(v, v', h) && v'.level[h] == 0 && v'.chain[h] == |best|
    requires GenesisVote(v', levels, h) && CountsOneMore(v, v', |best|, 0)
    ensures VotersExtend(v, v') && ForestOk(v', levels, best + [(h, 0)])
  {
    ChainIsNew(v, best);
    hide OneRoot, VotesInOrder, CountsExact, VotersExtend, BestVoters, GenesisVote, CountsOneMore;
    OneMoreLinked(v, v', h);
    OneMoreRoot(v, v', h);
    OneMoreChain(v, v', best, h);
    OneMoreVotes(v, v', levels, h);
    OneMoreCounts(v, v', h);
  }

  lemma NoVoters(levels: map<Hash, nat>)
    ensures ForestOk(Voters(map[], map[], map[], map[], map[], map[]), levels, [])
  {
    var v := Voters(map[], map[], map[], map[], map[], map[]);
    assert forall c: nat, l: nat :: LevelSet(v, c, l) == {};
  }
}
