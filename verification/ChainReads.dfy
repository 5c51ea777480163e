/** The queries of `BlockChain` that the miner uses, src/blockchain/mod.rs. */
module ChainReads {
  import opened Prelude
  import opened LedgerSpec
  import opened ProposerGraph
  import opened VoteLevels
  import opened ChainSteps
  import opened ChainState

  function TimeOf(m: map<Hash, nat>, k: Hash): nat {
    if k in m then m[k] else 0
  }

  /** `keys` are the keys of `m`, each once, by increasing value. */
  ghost predicate SortedKeys(m: map<Hash, nat>, keys: seq<Hash>) {
    && NoDup(keys) && Elements(keys) == m.Keys
    && forall i, j | 0 <= i < j < |keys| :: TimeOf(m, keys[i]) <= TimeOf(m, keys[j])
  }

  predicate IsEarliest(m: map<Hash, nat>, rest: set<Hash>, k: Hash) {
    k in rest && forall j | j in rest :: TimeOf(m, k) <= TimeOf(m, j)
  }

  lemma {:induction false} Earliest(m: map<Hash, nat>, rest: set<Hash>)
    requires rest != {}
    ensures exists k :: IsEarliest(m, rest, k)
    decreases rest
  {
    var x :| x in rest;
    var others := rest - {x};
    if others == {} {
      assert rest == {x};
      assert IsEarliest(m, rest, x);
    } else {
      Earliest(m, others);
      var k :| IsEarliest(m, others, k);
      assert IsEarliest(m, rest, if TimeOf(m, k) <= TimeOf(m, x) then k else x);
    }
  }

  /** `unreferred_proposers` and `unreferred_transactions`: the keys of a map from hashes to
      timestamps, oldest first. */
  method ByTimestamp(m: map<Hash, nat>) returns (keys: seq<Hash>)
    ensures SortedKeys(m, keys)
  {
    keys := [];
    var rest := m.Keys;
    while rest != {}
      invariant rest <= m.Keys && Elements(keys) == m.Keys - rest && NoDup(keys)
      invariant forall i, j | 0 <= i < j < |keys| :: TimeOf(m, keys[i]) <= TimeOf(m, keys[j])
      invariant forall i, k | 0 <= i < |keys| && k in rest :: TimeOf(m, keys[i]) <= TimeOf(m, k)
      decreases rest
    {
      Earliest(m, rest);
      var k :| k in rest && IsEarliest(m, rest, k);
      NoDupConcat(keys, [k]);
      ElementsConcat(keys, [k]);
      assert Elements([k]) == {k};
      keys, rest := keys + [k], rest - {k};
    }
  }

  ghost predicate Ascending(s: seq<Hash>) {
    forall i, j | 0 <= i < j < |s| :: s[i] <= s[j]
  }

  /** `sort_unstable` on a list without duplicates. */
  method SortHashes(s: seq<Hash>) returns (r: seq<Hash>)
    requires NoDup(s)
    ensures Ascending(r) && NoDup(r) && forall x: Hash :: x in r <==> x in s
  {
    var m := map h | h in s :: h;
    r := ByTimestamp(m);
    hide NoDup;
    forall x: Hash
      ensures x in r <==> x in s
    {
      assert x in r <==> x in Elements(r);
    }
    forall i, j | 0 <= i < j < |r|
      ensures r[i] <= r[j]
    {
      assert TimeOf(m, r[i]) <= TimeOf(m, r[j]);
    }
  }

  /** The block of a level with the most votes, the lowest hash among equals. */
  ghost predicate MostVoted(blocks: seq<Hash>, count: map<Hash, nat>, p: Hash) {
    && p in blocks
    && forall q | q in blocks :: CountOf(count, q) < CountOf(count, p) || (CountOf(count, q) == CountOf(count, p) && p <= q)
  }

  method PickVote(blocks: seq<Hash>, count: map<Hash, nat>) returns (best: Hash)
    requires blocks != [] && NoDup(blocks)
    ensures MostVoted(blocks, count, best)
  {
    var sorted := SortHashes(blocks);
    hide NoDup, CountOf;
    assert blocks[0] in sorted;
    var bestVote: Option<(Hash, nat)> := None;
    for i := 0 to |sorted|
      invariant bestVote.None? <==> i == 0
      invariant bestVote.Some? ==> MostVoted(sorted[..i], count, bestVote.value.0) && bestVote.value.1 == CountOf(count, bestVote.value.0)
    {
      var votes := CountOf(count, sorted[i]);
      if bestVote.None? || votes > bestVote.value.1 {
        bestVote := Some((sorted[i], votes));
      }
    }
    best := bestVote.value.0;
    assert sorted[..|sorted|] == sorted;
  }

  /** `h` was inserted first among the blocks of the highest level. */
  ghost predicate FirstOfBest(s: State, h: Hash) {
    && s.proposerBestLevel in s.db.proposers.byLevel && s.db.proposers.byLevel[s.proposerBestLevel] != []
    && h == s.db.proposers.byLevel[s.proposerBestLevel][0]
  }

  /** `best_proposer`: the first block of the highest level. */
  method BestProposer(c: Config, s: State) returns (h: Hash)
    requires ValidState(c, s)
    ensures h in s.db.proposers.level && s.db.proposers.level[h] == s.proposerBestLevel
    ensures forall q | q in s.db.proposers.level :: s.db.proposers.level[q] <= s.db.proposers.level[h]
    ensures FirstOfBest(s, h)
  {
    hide ValidState;
    LevelsHaveBlocks(c, s);
    h := s.db.proposers.byLevel[s.proposerBestLevel][0];
    assert h in s.db.proposers.byLevel[s.proposerBestLevel];
  }

  /** One vote for each level from `first + 1` to `last`. */
  ghost predicate BestVotes(g: Proposers, count: map<Hash, nat>, list: seq<Hash>, first: nat, last: nat) {
    && |list| == (if first <= last then last - first else 0)
    && forall i | 0 <= i < |list| :: BestVote(g, count, first + 1 + i, list[i])
  }

  ghost predicate BestVote(g: Proposers, count: map<Hash, nat>, level: nat, p: Hash) {
    level in g.byLevel && MostVoted(g.byLevel[level], count, p)
  }

  lemma OneMoreVote(g: Proposers, count: map<Hash, nat>, list: seq<Hash>, first: nat, last: nat, p: Hash)
    requires first <= last && BestVotes(g, count, list, first, last) && BestVote(g, count, last + 1, p)
    ensures BestVotes(g, count, list + [p], first, last + 1)
  {
  }

  /** `unvoted_proposer`. */
  method UnvotedProposer(c: Config, s: State, tip: Hash, proposerParent: Hash) returns (list: seq<Hash>)
    requires ValidState(c, s) && tip in s.db.voters.votedLevel && proposerParent in s.db.proposers.level
    ensures BestVotes(s.db.proposers, s.db.voteCount, list, s.db.voters.votedLevel[tip], s.db.proposers.level[proposerParent])
  {
    hide ValidState;
    LevelsHaveBlocks(c, s);
    list := VotesBetween(s.db.proposers, s.db.voteCount, s.db.voters.votedLevel[tip], proposerParent, s.proposerBestLevel);
  }

  method VotesBetween(g: Proposers, count: map<Hash, nat>, first: nat, parent: Hash, ghost best: nat) returns (list: seq<Hash>)
    requires LevelsListed(g) && BestLevel(g, best) && parent in g.level
    ensures BestVotes(g, count, list, first, g.level[parent])
  {
    hide MostVoted, LevelsListed, BestLevel, NoDup;
    var last := g.level[parent];
    list := [];
    var level := first + 1;
    while level <= last
      invariant first < level && (first <= last ==> level <= last + 1)
      invariant first > last ==> list == []
      invariant first <= last ==> BestVotes(g, count, list, first, level - 1)
    {
      LevelHasBlocks(g, best, parent, level);
      var p := PickVote(g.byLevel[level], count);
      OneMoreVote(g, count, list, first, level - 1, p);
      list := list + [p];
      level := level + 1;
    }
  }

  lemma LevelsHaveBlocks(c: Config, s: State)
    requires ValidState(c, s)
    ensures LevelsListed(s.db.proposers) && BestLevel(s.db.proposers, s.proposerBestLevel)
  {
    hide UnreferredExact, VotersOk, IndexOk, LedgerOk, Registered, ValidConfig, GrownFrom, Acyclic, LevelsListed, BestLevel;
  }

  lemma LevelHasBlocks(g: Proposers, best: nat, h: Hash, level: nat)
    requires LevelsListed(g) && BestLevel(g, best) && h in g.level && level <= g.level[h]
    ensures level in g.byLevel && g.byLevel[level] != [] && NoDup(g.byLevel[level])
  {
  }

  /** The votes the miner puts into a voter block pass `check_levels_voted`. */
  lemma BestVotesCover(g: Proposers, count: map<Hash, nat>, list: seq<Hash>, first: nat, last: nat)
    requires LevelsListed(g) && BestVotes(g, count, list, first, last) && first <= last
    ensures CoversLevels(list, g.level, first, last)
  {
    forall i | 0 <= i < |list|
      ensures list[i] in g.level && g.level[list[i]] == first + 1 + i
    {
      assert BestVote(g, count, first + 1 + i, list[i]);
    }
  }
}
