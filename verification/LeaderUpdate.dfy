/** The first two phases of `update_ledger`, src/blockchain/mod.rs: follow the voter chains to
    their best blocks, then elect leaders on the proposer levels that saw a vote change. */
module LeaderUpdate {
  import opened Prelude
  import opened LedgerSpec
  import opened LedgerUpdate
  import opened ProposerGraph
  import opened VoterTrees
  import opened VoteLevels
  import opened VoteIndex
  import opened VoterForest
  import opened VoteTally
  import opened Election
  import opened ElectionSpec

  /** `affected_range`: the proposer levels from the lowest to the highest that was touched. */
  datatype Affected = Nothing | Levels(start: nat, end: nat)
  {
    predicate Covers(level: nat) {
      Levels? && start <= level < end
    }

    predicate Within(best: nat) {
      Levels? ==> 1 <= start < end <= best + 1
    }

    function Widen(level: nat): Affected {
      if Nothing? then Levels(level, level + 1)
      else Levels(if level < start then level else start, if level >= end then level + 1 else end)
    }

    ghost predicate Includes(smaller: Affected) {
      forall level: nat | smaller.Covers(level) :: Covers(level)
    }
  }

  /** Every listed vote is for a block of a level from 1 to `best`. */
  ghost predicate AboveGenesis(votes: seq<(Hash, nat)>, levels: map<Hash, nat>, best: nat) {
    forall x | x in votes :: x.0 in levels && 1 <= levels[x.0] <= best
  }

  /** The smallest range that covers some levels. */
  ghost predicate Hull(a: Affected, hit: set<nat>) {
    && (a == Nothing <==> hit == {}) && (forall l | l in hit :: a.Covers(l))
    && (a.Levels? ==> a.start in hit && a.end >= 1 && a.end - 1 in hit)
  }

  /** The levels of the blocks voted for. */
  ghost function LevelsOf(votes: seq<(Hash, nat)>, levels: map<Hash, nat>): set<nat> {
    set x | x in votes && x.0 in levels :: levels[x.0]
  }

  /** Widen the range just enough to cover the levels of the changed votes. */
  method WidenOver(a: Affected, votes: seq<(Hash, nat)>, levels: map<Hash, nat>, ghost best: nat, ghost hit: set<nat>)
    returns (b: Affected)
    requires AboveGenesis(votes, levels, best) && a.Within(best) && Hull(a, hit)
    ensures b.Within(best) && Hull(b, hit + LevelsOf(votes, levels)) && b.Includes(a)
    ensures forall x | x in votes :: b.Covers(levels[x.0])
    ensures votes == [] ==> b == a
  {
    hide Hull, LevelsOf, AboveGenesis;
    b := a;
    NothingWidened(a, votes, levels, hit);
    for i := 0 to |votes|
      invariant b.Within(best) && b.Includes(a) && (i == 0 ==> b == a)
      invariant Hull(b, hit + LevelsOf(votes[..i], levels))
    {
      VoteIsAbove(votes, levels, best, i);
      WidenOne(b, votes, levels, i, hit);
      b := b.Widen(levels[votes[i].0]);
    }
    assert votes[..|votes|] == votes;
    HullCovers(b, votes, levels, best, hit);
  }

  lemma NothingWidened(a: Affected, votes: seq<(Hash, nat)>, levels: map<Hash, nat>, hit: set<nat>)
    requires Hull(a, hit)
    ensures Hull(a, hit + LevelsOf(votes[..0], levels))
  {
    assert hit + LevelsOf(votes[..0], levels) == hit;
  }

  lemma VoteIsAbove(votes: seq<(Hash, nat)>, levels: map<Hash, nat>, best: nat, i: nat)
    requires AboveGenesis(votes, levels, best) && i < |votes|
    ensures votes[i].0 in levels && 1 <= levels[votes[i].0] <= best
  {
    assert votes[i] in votes;
  }

  lemma HullCovers(a: Affected, votes: seq<(Hash, nat)>, levels: map<Hash, nat>, best: nat, hit: set<nat>)
    requires AboveGenesis(votes, levels, best) && Hull(a, hit + LevelsOf(votes, levels))
    ensures forall x | x in votes :: x.0 in levels && a.Covers(levels[x.0])
  {
    forall x | x in votes
      ensures x.0 in levels && a.Covers(levels[x.0])
    {
      assert levels[x.0] in LevelsOf(votes, levels);
    }
  }

  lemma WidenOne(b: Affected, votes: seq<(Hash, nat)>, levels: map<Hash, nat>, i: nat, hit: set<nat>)
    requires i < |votes| && votes[i].0 in levels && Hull(b, hit + LevelsOf(votes[..i], levels))
    ensures Hull(b.Widen(levels[votes[i].0]), hit + LevelsOf(votes[..i + 1], levels))
  {
    var l := levels[votes[i].0];
    assert votes[..i + 1] == votes[..i] + [votes[i]];
    assert LevelsOf(votes[..i + 1], levels) == LevelsOf(votes[..i], levels) + {l};
    var before := hit + LevelsOf(votes[..i], levels);
    assert hit + LevelsOf(votes[..i + 1], levels) == before + {l};
    assert l in before + {l};
  }

  lemma DiffAboveGenesis(v: Voters, levels: map<Hash, nat>, best: nat, h: Hash, m: nat)
    requires Linked(v) && VotesInOrder(v, levels) && h in v.level && m <= v.level[h]
    requires forall p | p in levels :: levels[p] <= best
    ensures AboveGenesis(VotesDown(v, h, m), levels, best)
  {
    forall x | x in VotesDown(v, h, m)
      ensures x.0 in levels && 1 <= levels[x.0] <= best
    {
      ChangedVotesAreAboveGenesis(v, levels, h, m, x.0, x.1);
    }
  }

  /** Votes for `p` differ between the two indexes. */
  ghost predicate Touched(index: map<Hash, seq<Vote>>, index': map<Hash, seq<Vote>>, p: Hash) {
    exists c: nat, l: nat :: (c, l) in Lookup(index', p) <==> (c, l) !in Lookup(index, p)
  }

  /** The range covers every level on which a vote changed. */
  ghost predicate CoversChanges(a: Affected, index: map<Hash, seq<Vote>>, index': map<Hash, seq<Vote>>, levels: map<Hash, nat>) {
    forall p: Hash | Touched(index, index', p) :: p in levels && a.Covers(levels[p])
  }

  lemma CoversOneMore(a: Affected, b: Affected, index: map<Hash, seq<Vote>>, mid: map<Hash, seq<Vote>>, index': map<Hash, seq<Vote>>,
                      changed: seq<(Hash, nat)>, levels: map<Hash, nat>, best: nat)
    requires CoversChanges(a, index, mid, levels) && OnlyChanges(mid, index', changed)
    requires AboveGenesis(changed, levels, best) && b.Includes(a) && forall x | x in changed :: b.Covers(levels[x.0])
    ensures CoversChanges(b, index, index', levels)
  {
    forall p: Hash | Touched(index, index', p)
      ensures p in levels && b.Covers(levels[p])
    {
      var c: nat, l: nat :| (c, l) in Lookup(index', p) <==> (c, l) !in Lookup(index, p);
      if (c, l) in Lookup(mid, p) <==> (c, l) !in Lookup(index, p) {
        assert Touched(index, mid, p);
      } else {
        assert (p, l) in changed;
      }
    }
  }

  /** The levels of blocks that lose or win a vote when a main chain switches tips. */
  ghost function Switched(v: Voters, levels: map<Hash, nat>, from: Hash, to: Hash): set<nat>
    requires Linked(v) && from in v.level && to in v.level
  {
    set p | p in levels && (LosesVote(v, from, to, p) || LosesVote(v, to, from, p)) :: levels[p]
  }

  lemma DiffIsSwitched(v: Voters, levels: map<Hash, nat>, from: Hash, to: Hash, m: nat)
    requires Linked(v) && from in v.level && to in v.level && MeetAt(v, from, to, m)
    ensures LevelsOf(VotesDown(v, from, m), levels) + LevelsOf(VotesDown(v, to, m), levels) == Switched(v, levels, from, to)
  {
    hide VotesDown, VotesOff, Linked;
    forall p: Hash, l: nat
      ensures VotesOff(v, from, to, p, l) <==> (p, l) in VotesDown(v, from, m)
      ensures VotesOff(v, to, from, p, l) <==> (p, l) in VotesDown(v, to, m)
    {
      OffIsAboveMeeting(v, from, to, m, p, l);
      OffIsAboveMeeting(v, to, from, m, p, l);
    }
    var lost, won := VotesDown(v, from, m), VotesDown(v, to, m);
    forall n: nat
      ensures n in LevelsOf(lost, levels) + LevelsOf(won, levels) <==> n in Switched(v, levels, from, to)
    {
      if x :| x in lost && x.0 in levels && levels[x.0] == n {
        assert VotesOff(v, from, to, x.0, x.1);
        assert LosesVote(v, from, to, x.0);
      }
      if x :| x in won && x.0 in levels && levels[x.0] == n {
        assert VotesOff(v, to, from, x.0, x.1);
        assert LosesVote(v, to, from, x.0);
      }
      if p :| p in levels && LosesVote(v, from, to, p) && levels[p] == n {
        var l: nat :| VotesOff(v, from, to, p, l);
        assert (p, l) in lost;
      }
      if p :| p in levels && LosesVote(v, to, from, p) && levels[p] == n {
        var l: nat :| VotesOff(v, to, from, p, l);
        assert (p, l) in won;
      }
    }
  }

  /** The same for the first `n` chains. */
  ghost function SwitchedChains(v: Voters, levels: map<Hash, nat>, tips: seq<Hash>, tips': seq<Hash>, n: nat): set<nat>
    requires Linked(v) && n <= |tips| == |tips'| && TipsKnown(v, tips) && TipsKnown(v, tips')
  {
    if n == 0 then {}
    else SwitchedChains(v, levels, tips, tips', n - 1) + Switched(v, levels, tips[n - 1], tips'[n - 1])
  }

  ghost predicate TipsOk(v: Voters, tips: seq<Hash>)
    requires Linked(v)
  {
    TipsOnChains(v, tips) && TipsKnown(v, tips)
  }

  /** Move one ledger tip to the best block of its chain. */
  method FollowChain(v: Voters, levels: map<Hash, nat>, index: map<Hash, seq<Vote>>, tips: seq<Hash>, chain: nat, to: Hash,
                     a: Affected, ghost first: map<Hash, seq<Vote>>, ghost best: nat, ghost hit: set<nat>)
    returns (index': map<Hash, seq<Vote>>, b: Affected)
    requires Linked(v) && OneRoot(v) && VotesInOrder(v, levels) && TipsOk(v, tips) && IndexExact(index, v, tips)
    requires chain < |tips| && to in v.level && v.chain[to] == chain
    requires a.Within(best) && CoversChanges(a, first, index, levels) && forall p | p in levels :: levels[p] <= best
    requires Hull(a, hit)
    ensures Hull(b, hit + Switched(v, levels, tips[chain], to))
    ensures TipsOk(v, tips[chain := to]) && IndexExact(index', v, tips[chain := to])
    ensures b.Within(best) && CoversChanges(b, first, index', levels)
    ensures tips[chain] == to ==> index' == index && b == a
  {
    hide OneRoot, VotesInOrder, IndexExact, CoversChanges, MeetAt, VotesDistinct, OnlyChanges, AboveGenesis, HangsBelowParent,
      Hull, LevelsOf, Switched;
    var from := tips[chain];
    var added, removed, meet := VoteDiff(v, from, to);
    VotesAreDistinct(v, levels);
    index' := MoveTip(index, v, tips, chain, to, added, removed, meet);
    MeetBounds(v, from, to, meet);
    DiffAboveGenesis(v, levels, best, from, meet);
    DiffAboveGenesis(v, levels, best, to, meet);
    b := WidenOver(a, removed, levels, best, hit);
    b := WidenOver(b, added, levels, best, hit + LevelsOf(removed, levels));
    DiffIsSwitched(v, levels, from, to, meet);
    assert hit + LevelsOf(removed, levels) + LevelsOf(added, levels) == hit + Switched(v, levels, from, to);
    BothAboveGenesis(added, removed, levels, best);
    assert forall x: (Hash, nat) | x in added + removed :: b.Covers(levels[x.0]);
    CoversOneMore(a, b, first, index, index', added + removed, levels, best);
  }

  lemma MeetBounds(v: Voters, from: Hash, to: Hash, meet: nat)
    requires Linked(v) && from in v.level && to in v.level && MeetAt(v, from, to, meet)
    ensures meet <= v.level[from] && meet <= v.level[to]
  {
  }

  lemma BothAboveGenesis(a: seq<(Hash, nat)>, b: seq<(Hash, nat)>, levels: map<Hash, nat>, best: nat)
    requires AboveGenesis(a, levels, best) && AboveGenesis(b, levels, best)
    ensures AboveGenesis(a + b, levels, best)
    ensures forall x | x in a + b :: x.0 in levels
  {
  }

  /** The tips at the end of the first phase. */
  function BestBlocks(best: seq<(Hash, nat)>): (r: seq<Hash>)
    ensures |r| == |best| && forall c | 0 <= c < |best| :: r[c] == best[c].0
  {
    seq(|best|, c requires 0 <= c < |best| => best[c].0)
  }

  /** The first phase: all chains. */
  method FollowChains(v: Voters, levels: map<Hash, nat>, index: map<Hash, seq<Vote>>, tips: seq<Hash>, voterBest: seq<(Hash, nat)>,
                      ghost best: nat)
    returns (index': map<Hash, seq<Vote>>, tips': seq<Hash>, a: Affected)
    requires ForestOk(v, levels, voterBest) && TipsOk(v, tips) && IndexExact(index, v, tips) && |tips| == |voterBest|
    requires forall p | p in levels :: levels[p] <= best
    ensures tips' == BestBlocks(voterBest) && TipsOk(v, tips') && IndexExact(index', v, tips')
    ensures a.Within(best) && CoversChanges(a, index, index', levels)
    ensures TipsKnown(v, tips) && TipsKnown(v, tips') && Hull(a, SwitchedChains(v, levels, tips, tips', |tips|))
    ensures tips == BestBlocks(voterBest) ==> index' == index && a == Nothing
  {
    hide Linked, OneRoot, VotesInOrder, BestVoters, CountsExact, TipsOk, CoversChanges, Hull, Switched;
    index', tips', a := index, tips, Nothing;
    NothingChanged(index, levels);
    TipsAreKnown(v, tips);
    BestAreKnown(v, voterBest);
    ghost var target := BestBlocks(voterBest);
    NothingHit();
    for chain := 0 to |voterBest|
      invariant Hull(a, SwitchedChains(v, levels, tips, target, chain))
      invariant |tips'| == |tips| && forall c | chain <= c < |tips| :: tips'[c] == tips[c]
      invariant |tips'| == |tips| && TipsOk(v, tips') && TipsKnown(v, tips') && IndexExact(index', v, tips')
      invariant forall c | 0 <= c < chain :: tips'[c] == voterBest[c].0
      invariant a.Within(best) && CoversChanges(a, index, index', levels)
      invariant tips == BestBlocks(voterBest) ==> tips' == tips && index' == index && a == Nothing
    {
      var to := voterBest[chain].0;
      BestIsOnChain(v, voterBest, chain);
      index', a := FollowChain(v, levels, index', tips', chain, to, a, index, best, SwitchedChains(v, levels, tips, target, chain));
      tips' := tips'[chain := to];
      TipsAreKnown(v, tips');
    }
  }

  lemma NothingHit()
    ensures Hull(Nothing, {})
  {
  }

  lemma BestAreKnown(v: Voters, best: seq<(Hash, nat)>)
    requires Linked(v) && BestVoters(v, best)
    ensures TipsKnown(v, BestBlocks(best))
  {
    forall c | 0 <= c < |best|
      ensures BestBlocks(best)[c] in v.level
    {
      BestIsOnChain(v, best, c);
    }
  }

  lemma NothingChanged(index: map<Hash, seq<Vote>>, levels: map<Hash, nat>)
    ensures CoversChanges(Nothing, index, index, levels)
  {
  }

  lemma BestIsOnChain(v: Voters, best: seq<(Hash, nat)>, c: nat)
    requires Linked(v) && BestVoters(v, best) && c < |best|
    ensures best[c].0 in v.level && best[c].0 in v.chain && v.chain[best[c].0] == c
  {
    assert BestOfChain(v, best[c], c);
  }

  lemma TipsAreKnown(v: Voters, tips: seq<Hash>)
    requires Linked(v) && TipsOk(v, tips)
    ensures TipsKnown(v, tips)
  {
  }

  function Find(leaders: map<nat, Hash>, level: nat): Option<Hash> {
    if level in leaders then Some(leaders[level]) else None
  }

  function Store(leaders: map<nat, Hash>, level: nat, leader: Option<Hash>): map<nat, Hash> {
    match leader
    case None => leaders - {level}
    case Some(h) => leaders[level := h]
  }

  /** Everything the elections of one update look at. */
  datatype Electorate = Electorate(
    proposers: Proposers, voters: Voters, index: map<Hash, seq<Vote>>, tips: seq<Hash>, voterBest: seq<(Hash, nat)>,
    estimator: Estimator, confirm: real, deconfirm: real)

  ghost predicate ValidElectorate(e: Electorate, genesis: Hash, best: nat) {
    && GraphOk(e.proposers, genesis, best)
    && ForestOk(e.voters, e.proposers.level, e.voterBest)
    && TipsOk(e.voters, e.tips) && IndexExact(e.index, e.voters, e.tips) && |e.tips| == |e.voterBest|
    && ValidEstimator(e.estimator) && 0.0 <= e.deconfirm && 0.0 <= e.confirm
  }

  /** The leader a level gets when it is elected anew: by the stricter test unless it already
      has one. */
  ghost function Elect(e: Electorate, genesis: Hash, best: nat, level: nat, hasLeader: bool): Option<Hash>
    requires ValidElectorate(e, genesis, best) && level <= best
  {
    LevelTally(e, genesis, best, level);
    ElectedLeader(TallyOf(e.voters, e.index, e.voterBest, e.proposers.byLevel[level]), e.estimator,
                  if hasLeader then e.deconfirm else e.confirm)
  }

  lemma LevelTally(e: Electorate, genesis: Hash, best: nat, level: nat)
    requires ValidElectorate(e, genesis, best) && level <= best
    ensures level in e.proposers.byLevel && Linked(e.voters)
    ensures IndexInRange(e.index, e.voterBest) && Countable(e.voters, e.voterBest)
    ensures TallyOf(e.voters, e.index, e.voterBest, e.proposers.byLevel[level]).Valid()
  {
    hide Acyclic, GrownFrom, IndexExact, OneRoot, VotesInOrder, BestVoters, CountsExact, ValidEstimator, HangsBelowParent,
      TipsOnChains;
    TallyIsValid(e.voters, e.proposers.level, e.index, e.tips, e.voterBest, e.proposers.byLevel[level], level);
  }

  lemma ElectIsListed(e: Electorate, genesis: Hash, best: nat, level: nat, hasLeader: bool)
    requires ValidElectorate(e, genesis, best) && level <= best
    ensures level in e.proposers.byLevel
    ensures var r := Elect(e, genesis, best, level, hasLeader);
            r.Some? ==> r.value in e.proposers.byLevel[level]
  {
    hide ForestOk, TipsOk, IndexExact, GraphOk, ValidEstimator, Linked, IndexInRange, Countable, ElectedLeader;
    LevelTally(e, genesis, best, level);
    var t := TallyOf(e.voters, e.index, e.voterBest, e.proposers.byLevel[level]);
    ElectedIsListed(t, e.estimator, if hasLeader then e.deconfirm else e.confirm);
  }

  lemma ElectedIsOfLevel(e: Electorate, genesis: Hash, best: nat, level: nat, hasLeader: bool)
    requires ValidElectorate(e, genesis, best) && level <= best
    ensures var r := Elect(e, genesis, best, level, hasLeader);
            r.Some? ==> r.value in e.proposers.level && e.proposers.level[r.value] == level
  {
    hide Elect, ForestOk, TipsOk, IndexExact, ValidEstimator, Acyclic, GrownFrom, BestLevel, Linked;
    ElectIsListed(e, genesis, best, level, hasLeader);
  }

  /** The leader is the block of the level that wins on the counted votes, if there is one. */
  ghost predicate LevelWon(e: Electorate, level: nat, quantile: real, leader: Option<Hash>) {
    && level in e.proposers.byLevel && Linked(e.voters) && IndexInRange(e.index, e.voterBest) && e.estimator.ratio < 0.5
    && LeaderWins(TallyOf(e.voters, e.index, e.voterBest, e.proposers.byLevel[level]), e.estimator, quantile, leader)
  }

  /** One level of the second phase. */
  method ElectLevel(e: Electorate, ghost genesis: Hash, ghost best: nat, level: nat, existing: Option<Hash>)
    returns (leader: Option<Hash>)
    requires ValidElectorate(e, genesis, best) && level <= best
    ensures leader == Elect(e, genesis, best, level, existing.Some?)
    ensures LevelWon(e, level, if existing.Some? then e.deconfirm else e.confirm, leader)
  {
    LevelTally(e, genesis, best, level);
    hide LeaderWins, GraphOk, ForestOk, TipsOk, IndexExact, ValidEstimator, Linked, IndexInRange, Countable, ElectedLeader, TallyOf;
    var blocks := e.proposers.byLevel[level];
    var confirmed := ProposerLeader(e.voters, e.index, e.voterBest, blocks, e.estimator, e.confirm);
    var deconfirmed := ProposerLeader(e.voters, e.index, e.voterBest, blocks, e.estimator, e.deconfirm);
    leader := if existing.Some? then deconfirmed else confirmed;
  }

  /** The leaders after levels `start` to `end - 1` were elected anew. */
  ghost predicate ElectedBetween(e: Electorate, genesis: Hash, best: nat, leaders: map<nat, Hash>, leaders': map<nat, Hash>,
                                 start: nat, end: nat)
    requires ValidElectorate(e, genesis, best) && end <= best + 1
  {
    forall l: nat :: Find(leaders', l) == if start <= l < end then Elect(e, genesis, best, l, l in leaders) else Find(leaders, l)
  }

  /** `change_begin`: the first level whose leader changed. */
  ghost predicate FirstChange(leaders: map<nat, Hash>, leaders': map<nat, Hash>, start: nat, end: nat, begin: Option<nat>) {
    match begin
    case None => leaders' == leaders
    case Some(b) => start <= b < end && AgreeBelow(leaders, leaders', b) && Find(leaders', b) != Find(leaders, b)
  }

  /** The second phase: elect the leaders of the affected levels. */
  method ElectLeaders(e: Electorate, ghost genesis: Hash, ghost best: nat, leaders: map<nat, Hash>, start: nat, end: nat)
    returns (leaders': map<nat, Hash>, begin: Option<nat>)
    requires ValidElectorate(e, genesis, best) && start <= end <= best + 1
    ensures ElectedBetween(e, genesis, best, leaders, leaders', start, end)
    ensures FirstChange(leaders, leaders', start, end, begin)
  {
    hide ValidElectorate, Elect, LevelWon;
    leaders', begin := leaders, None;
    for level := start to end
      invariant ElectedBetween(e, genesis, best, leaders, leaders', start, level)
      invariant FirstChange(leaders, leaders', start, level, begin)
    {
      var existing := Find(leaders, level);
      var leader := ElectLevel(e, genesis, best, level, existing);
      if leader != existing {
        if begin.None? {
          begin := Some(level);
        }
        leaders' := Store(leaders', level, leader);
      }
    }
  }

  lemma ElectedInPlace(e: Electorate, genesis: Hash, best: nat, leaders: map<nat, Hash>, leaders': map<nat, Hash>, start: nat, end: nat)
    requires ValidElectorate(e, genesis, best) && end <= best + 1 && ElectedBetween(e, genesis, best, leaders, leaders', start, end)
    requires LeadersInPlace(e.proposers, leaders)
    ensures LeadersInPlace(e.proposers, leaders')
  {
    forall l | l in leaders'
      ensures leaders'[l] in e.proposers.refs && leaders'[l] in e.proposers.level && e.proposers.level[leaders'[l]] == l
    {
      assert Find(leaders', l) == Some(leaders'[l]);
      if start <= l < end {
        ElectedIsOfLevel(e, genesis, best, l, l in leaders);
      }
    }
  }
}
