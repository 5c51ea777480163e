/** The loops of `proposer_leader`. */
module Election {
  import opened Prelude
  import opened ElectionSpec
  import opened VoteBounds

  method RemovalProbability(e: Estimator, mean: real, depth: nat) returns (p: real)
    requires e.ratio < 0.5
    ensures p == Removal(e, mean, depth)
    ensures ValidEstimator(e) && mean > 0.0 ==> 0.0 <= p <= 1.0
  {
    if ValidEstimator(e) && mean > 0.0 {
      RemovalInUnit(e, mean, depth);
    }
    p := 1.0 - Mass(e, mean, depth + 2);
    for k := 0 to depth
      invariant p == 1.0 - Mass(e, mean, depth + 2) + Overtake(e, mean, depth, k)
    {
      var p1 := e.pmf(mean, k);
      var p2 := Power(CatchUp(e), depth - k + 1);
      p := p + p1 * p2;
    }
  }

  method BlockBound(e: Estimator, mean: real, depths: seq<nat>, quantile: real) returns (bound: real)
    requires e.ratio < 0.5
    ensures bound == LowerBound(e, mean, depths, quantile)
    ensures bound == Confident(e, Removals(e, mean, depths), quantile)
  {
    hide Removal, Confident, Removals;
    BoundIsConfident(e, mean, depths, quantile);
    var votesMean, votesVariance := 0.0, 0.0;
    for i := 0 to |depths|
      invariant votesMean == Mean(e, mean, depths[..i]) && votesVariance == Variance(e, mean, depths[..i])
    {
      var p := RemovalProbability(e, mean, depths[i]);
      assert Init(depths[..i + 1]) == depths[..i] && Last(depths[..i + 1]) == depths[i];
      votesMean := votesMean + (1.0 - p);
      votesVariance := votesVariance + p * (1.0 - p);
    }
    assert depths[..|depths|] == depths;
    var low := votesMean - e.root(votesVariance) * quantile;
    bound := 0.0;
    if low > 0.0 {
      bound := bound + low;
    }
  }

  function Bounds(e: Estimator, mean: real, depths: seq<seq<nat>>, quantile: real): (r: seq<real>)
    requires e.ratio < 0.5
    ensures |r| == |depths|
  {
    if depths == [] then [] else Bounds(e, mean, Init(depths), quantile) + [LowerBound(e, mean, Last(depths), quantile)]
  }

  /** The candidate so far has the highest bound, at the lowest hash among those; there is none
      as long as every bound is zero. */
  ghost predicate Leading(blocks: seq<Hash>, bounds: seq<real>, highest: real, leader: Option<Hash>)
    requires |bounds| <= |blocks|
  {
    match leader
    case None => highest == 0.0 && forall j | 0 <= j < |bounds| :: bounds[j] == 0.0
    case Some(h) =>
      && highest > 0.0
      && (exists k :: 0 <= k < |bounds| && blocks[k] == h && bounds[k] == highest)
      && forall j | 0 <= j < |bounds| :: bounds[j] <= highest && (bounds[j] == highest ==> h <= blocks[j])
  }

  lemma LeadingStep(blocks: seq<Hash>, bounds: seq<real>, highest: real, leader: Option<Hash>, bound: real)
    requires |bounds| < |blocks| && bound >= 0.0 && Leading(blocks, bounds, highest, leader)
    ensures var block := blocks[|bounds|];
            var highest' := if highest < bound then bound else highest;
            var mid := if highest < bound then Some(block) else leader;
            var leader' := if highest' == bound && mid.Some? && block < mid.value then Some(block) else mid;
            Leading(blocks, bounds + [bound], highest', leader')
  {
    var b := bounds + [bound];
    assert b[|bounds|] == bound && forall j | 0 <= j < |bounds| :: b[j] == bounds[j];
  }

  /** The first loop: bounds, their sum, and the best candidate. */
  method PickCandidate(e: Estimator, mean: real, blocks: seq<Hash>, depths: seq<seq<nat>>, quantile: real)
    returns (bounds: seq<real>, total: real, highest: real, leader: Option<Hash>)
    requires ValidEstimator(e) && mean > 0.0 && quantile >= 0.0 && |blocks| == |depths|
    ensures bounds == Bounds(e, mean, depths, quantile) && total == Sum(bounds)
    ensures Leading(blocks, bounds, highest, leader)
  {
    hide LowerBound, Leading, Sum;
    bounds, total, highest, leader := [], 0.0, 0.0, None;
    NobodyLeads(blocks);
    for i := 0 to |blocks|
      invariant bounds == Bounds(e, mean, depths[..i], quantile) && total == Sum(bounds) && |bounds| == i
      invariant Leading(blocks, bounds, highest, leader)
    {
      var bound := BlockBound(e, mean, depths[i], quantile);
      LowerBoundRange(e, mean, depths[i], quantile);
      LeadingStep(blocks, bounds, highest, leader, bound);
      assert Init(depths[..i + 1]) == depths[..i] && Last(depths[..i + 1]) == depths[i];
      SumSnoc(bounds, bound);
      bounds := bounds + [bound];
      total := total + bound;
      if highest < bound {
        highest := bound;
        leader := Some(blocks[i]);
      }
      if highest == bound && leader.Some? {
        if blocks[i] < leader.value {
          leader := Some(blocks[i]);
        }
      }
    }
    assert depths[..|depths|] == depths;
  }

  lemma NobodyLeads(blocks: seq<Hash>)
    ensures Leading(blocks, [], 0.0, None) && Sum([]) == 0.0
  {
  }

  lemma SumSnoc(s: seq<real>, x: real)
    ensures Sum(s + [x]) == Sum(s) + x
  {
    SnocInit(s, x);
  }

  /** An unbeatable block is the candidate. */
  lemma UnbeatableLeads(p: Poll, highest: real, leader: Option<Hash>, i: nat)
    requires p.Valid() && Leading(p.blocks, p.bounds, highest, leader) && i < |p.blocks| && p.Unbeatable(i)
    ensures leader == Some(p.blocks[i]) && highest == p.bounds[i]
  {
    assert p.bounds[i] > 0.0;
    forall j | 0 <= j < |p.bounds| && j != i
      ensures p.bounds[j] < p.bounds[i] || (p.bounds[j] == p.bounds[i] && p.blocks[i] < p.blocks[j])
    {
      assert p.CannotPass(i, j);
    }
  }

  /** Block `j` does not stop the candidate. */
  predicate Harmless(p: Poll, j: nat, highest: real, h: Hash)
    requires j < |p.blocks| == |p.bounds|
  {
    && !(highest < p.bounds[j] + p.Remaining() && p.blocks[j] != h)
    && !(highest == p.bounds[j] + p.Remaining() && p.blocks[j] < h)
  }

  lemma HarmlessMeansUnbeatable(p: Poll, highest: real, h: Hash)
    requires p.Valid() && Leading(p.blocks, p.bounds, highest, Some(h)) && highest > p.Remaining()
    requires forall j | 0 <= j < |p.blocks| :: Harmless(p, j, highest, h)
    ensures Leader(p) == Some(h)
  {
    var k: nat :| k < |p.bounds| && p.blocks[k] == h && p.bounds[k] == highest;
    forall j | 0 <= j < |p.blocks| && j != k
      ensures p.CannotPass(k, j)
    {
      assert Harmless(p, j, highest, h);
      assert p.blocks[j] != p.blocks[k];
    }
    LeaderIs(p, k);
  }

  lemma UnbeatableIsHarmless(p: Poll, highest: real, leader: Option<Hash>, i: nat)
    requires p.Valid() && Leading(p.blocks, p.bounds, highest, leader) && i < |p.blocks| && p.Unbeatable(i)
    ensures leader.Some? && highest > p.Remaining()
    ensures forall j | 0 <= j < |p.blocks| :: Harmless(p, j, highest, leader.value)
  {
    UnbeatableLeads(p, highest, leader, i);
    forall j | 0 <= j < |p.blocks|
      ensures Harmless(p, j, highest, leader.value)
    {
      assert j == i || p.CannotPass(i, j);
    }
  }

  lemma NotUnbeatable(p: Poll, highest: real, leader: Option<Hash>)
    requires p.Valid() && Leading(p.blocks, p.bounds, highest, leader)
    requires leader.None? || highest <= p.Remaining() || exists j: nat :: j < |p.blocks| && !Harmless(p, j, highest, leader.value)
    ensures Leader(p) == None
  {
    forall i: nat | i < |p.blocks|
      ensures !p.Unbeatable(i)
    {
      if p.Unbeatable(i) {
        UnbeatableIsHarmless(p, highest, leader, i);
      }
    }
  }

  /** The second loop: the candidate stands unless a private block, or a known block with all
      remaining votes, could catch up. */
  method Contest(p: Poll, highest: real, leader: Option<Hash>) returns (r: Option<Hash>)
    requires p.Valid() && Leading(p.blocks, p.bounds, highest, leader)
    ensures r == Leader(p)
  {
    hide Leading, Leader;
    var remaining := p.Remaining();
    if highest <= remaining || leader.None? {
      NotUnbeatable(p, highest, leader);
      return None;
    }
    for j := 0 to |p.blocks|
      invariant forall i | 0 <= i < j :: Harmless(p, i, highest, leader.value)
    {
      if highest < p.bounds[j] + remaining && p.blocks[j] != leader.value {
        assert !Harmless(p, j, highest, leader.value);
        NotUnbeatable(p, highest, leader);
        return None;
      }
      if highest == p.bounds[j] + remaining && p.blocks[j] < leader.value {
        assert !Harmless(p, j, highest, leader.value);
        NotUnbeatable(p, highest, leader);
        return None;
      }
    }
    HarmlessMeansUnbeatable(p, highest, leader.value);
    r := leader;
  }

  function VoteCount(depths: seq<seq<nat>>): nat {
    if depths == [] then 0 else VoteCount(Init(depths)) + |Last(depths)|
  }

  /** The expected depth of an adversary, from the average number of voter blocks per vote. */
  function AdversaryMean(e: Estimator, voterBlocks: nat, votes: nat): real
    requires e.ratio < 0.5 && votes > 0
  {
    voterBlocks as real / votes as real / (1.0 - e.ratio) * e.ratio
  }

  lemma AdversaryMeanPositive(e: Estimator, voterBlocks: nat, votes: nat)
    requires 0.0 < e.ratio < 0.5 && votes > 0 && voterBlocks > 0
    ensures AdversaryMean(e, voterBlocks, votes) > 0.0
  {
    var a := voterBlocks as real / votes as real;
    assert a > 0.0;
    var b := a / (1.0 - e.ratio);
    assert b > 0.0;
  }

  lemma {:induction false} BoundsRange(e: Estimator, mean: real, depths: seq<seq<nat>>, quantile: real)
    requires ValidEstimator(e) && mean > 0.0 && quantile >= 0.0
    ensures forall x | x in Bounds(e, mean, depths, quantile) :: x >= 0.0
    ensures Sum(Bounds(e, mean, depths, quantile)) <= VoteCount(depths) as real
  {
    if depths != [] {
      hide LowerBound, ValidEstimator;
      BoundsRange(e, mean, Init(depths), quantile);
      LowerBoundRange(e, mean, Last(depths), quantile);
      SumSnoc(Bounds(e, mean, Init(depths), quantile), LowerBound(e, mean, Last(depths), quantile));
    }
  }

  lemma {:induction false} BoundsAntitone(e: Estimator, mean: real, depths: seq<seq<nat>>, low: real, high: real, i: nat)
    requires ValidEstimator(e) && mean > 0.0 && low <= high && i < |depths|
    ensures Bounds(e, mean, depths, high)[i] <= Bounds(e, mean, depths, low)[i]
  {
    hide LowerBound, ValidEstimator;
    if i == |depths| - 1 {
      LowerBoundAntitone(e, mean, Last(depths), low, high);
    } else {
      BoundsAntitone(e, mean, Init(depths), low, high, i);
    }
  }

  /** Everything an election looks at: the blocks of the level, the depths of the main-chain votes
      for each, and how many voter blocks were mined since. */
  datatype Tally = Tally(blocks: seq<Hash>, depths: seq<seq<nat>>, voterBlocks: nat, voterChains: nat)
  {
    ghost predicate Valid() {
      && NoDup(blocks) && |blocks| == |depths|
      && VoteCount(depths) <= voterBlocks && VoteCount(depths) <= voterChains
    }

    predicate EnoughVotes() {
      VoteCount(depths) > voterChains * 3 / 5
    }

    ghost function ToPoll(e: Estimator, quantile: real): Poll
      requires e.ratio < 0.5 && EnoughVotes()
    {
      Poll(blocks, Bounds(e, AdversaryMean(e, voterBlocks, VoteCount(depths)), depths, quantile), voterChains as real)
    }
  }

  lemma PollIsValid(t: Tally, e: Estimator, quantile: real)
    requires t.Valid() && ValidEstimator(e) && t.EnoughVotes() && quantile >= 0.0
    ensures t.ToPoll(e, quantile).Valid()
  {
    AdversaryMeanPositive(e, t.voterBlocks, VoteCount(t.depths));
    BoundsRange(e, AdversaryMean(e, t.voterBlocks, VoteCount(t.depths)), t.depths, quantile);
  }

  /** The leader of a level: the unbeatable block, once more than 3/5 of the chains voted. */
  ghost function ElectedLeader(t: Tally, e: Estimator, quantile: real): Option<Hash>
    requires t.Valid() && ValidEstimator(e) && quantile >= 0.0
  {
    if t.EnoughVotes() then
      PollIsValid(t, e, quantile);
      Leader(t.ToPoll(e, quantile))
    else None
  }

  /** The decision of `proposer_leader` on a tally. */
  method DecideLeader(t: Tally, e: Estimator, quantile: real) returns (leader: Option<Hash>)
    requires t.Valid() && ValidEstimator(e) && quantile >= 0.0
    ensures leader == ElectedLeader(t, e, quantile) && LeaderWins(t, e, quantile, leader)
  {
    hide LeaderWins;
    ElectedIsWinner(t, e, quantile);
    leader := None;
    var votes := VoteCount(t.depths);
    if votes > t.voterChains * 3 / 5 {
      hide Bounds, Leading, Leader;
      PollIsValid(t, e, quantile);
      var mean := AdversaryMean(e, t.voterBlocks, votes);
      AdversaryMeanPositive(e, t.voterBlocks, votes);
      var bounds, total, highest, candidate := PickCandidate(e, mean, t.blocks, t.depths, quantile);
      leader := Contest(Poll(t.blocks, bounds, t.voterChains as real), highest, candidate);
    }
  }

  /** A leader confirmed at one quantile is elected at every smaller one, although all lower
      bounds and the remaining votes move together. So the test that deconfirms, which has the
      smaller quantile, does not undo a confirmation in the state it was made in. */
  lemma LowerQuantileKeepsLeader(t: Tally, e: Estimator, low: real, high: real, h: Hash)
    requires t.Valid() && ValidEstimator(e) && 0.0 <= low <= high
    requires ElectedLeader(t, e, high) == Some(h)
    ensures ElectedLeader(t, e, low) == Some(h)
  {
    hide Bounds;
    PollIsValid(t, e, high);
    PollIsValid(t, e, low);
    var p, p' := t.ToPoll(e, high), t.ToPoll(e, low);
    var i: nat :| i < |p.blocks| && p.Unbeatable(i) && p.blocks[i] == h;
    var mean := AdversaryMean(e, t.voterBlocks, VoteCount(t.depths));
    AdversaryMeanPositive(e, t.voterBlocks, VoteCount(t.depths));
    forall j | 0 <= j < |p.bounds|
      ensures p.bounds[j] <= p'.bounds[j]
    {
      BoundsAntitone(e, mean, t.depths, low, high, j);
    }
    HigherBoundsKeepLeader(p, p', i);
    LeaderIs(p', i);
  }

  /** An elected leader has the most votes however the contested votes fall, and if enough chains
      voted, a block that always has the most votes is elected. */
  lemma ElectedIffAlwaysWins(t: Tally, e: Estimator, quantile: real, i: nat)
    requires t.Valid() && ValidEstimator(e) && quantile >= 0.0 && t.EnoughVotes() && i < |t.blocks|
    ensures var p := t.ToPoll(e, quantile);
            ElectedLeader(t, e, quantile) == Some(t.blocks[i]) <==>
            forall split, unseen | p.FinalSplit(split, unseen) :: p.Wins(i, split, unseen)
  {
    hide Bounds;
    PollIsValid(t, e, quantile);
    LeaderIs(t.ToPoll(e, quantile), i);
    UnbeatableIffAlwaysWins(t.ToPoll(e, quantile), i);
  }

  /** How many blocks someone with a share of the power mines while the others mine `blocks` for
      `votes` votes. */
  ghost function ShareOf(ratio: real, blocks: nat, votes: nat): real
    requires ratio < 0.5 && votes > 0
  {
    (ratio * blocks as real) / ((1.0 - ratio) * votes as real)
  }

  lemma {:induction false} BoundsAt(e: Estimator, mean: real, depths: seq<seq<nat>>, quantile: real, i: nat)
    requires e.ratio < 0.5 && i < |depths|
    ensures Bounds(e, mean, depths, quantile)[i] == LowerBound(e, mean, depths[i], quantile)
  {
    hide LowerBound;
    if i < |depths| - 1 {
      BoundsAt(e, mean, Init(depths), quantile, i);
    }
  }

  /** The adversary's blocks and the others' are in the proportion of their shares. */
  lemma SharesInProportion(e: Estimator, voterBlocks: nat, votes: nat)
    requires e.ratio < 0.5 && votes > 0
    ensures AdversaryMean(e, voterBlocks, votes) == ShareOf(e.ratio, voterBlocks, votes)
  {
    var m, b, n, q, r := AdversaryMean(e, voterBlocks, votes), voterBlocks as real, votes as real, 1.0 - e.ratio, e.ratio;
    var a := b / n;
    var d := a / q;
    assert m == d * r && a * n == b && d * q == a;
    Cross(d, q, n, r, a, b);
    assert q * n > 0.0;
    assert m == (r * b) / (q * n);
  }

  lemma Cross(d: real, q: real, n: real, r: real, a: real, b: real)
    requires a * n == b && d * q == a
    ensures (d * r) * (q * n) == r * b
  {
    assert (d * r) * (q * n) == r * ((d * q) * n);
  }

  lemma ThreeFifths(votes: nat, chains: nat)
    ensures votes > chains * 3 / 5 <==> 5 * votes > 3 * chains
  {
  }

  lemma TooFew(t: Tally, e: Estimator, quantile: real)
    requires t.Valid() && ValidEstimator(e) && quantile >= 0.0 && !t.EnoughVotes()
    ensures ElectedLeader(t, e, quantile) == None
  {
  }

  /** The blocks, each with the votes it keeps with some confidence. */
  ghost function KeptVotes(t: Tally, e: Estimator, quantile: real): Poll
    requires e.ratio < 0.5 && |t.blocks| == |t.depths| && VoteCount(t.depths) > 0
  {
    var mean := ShareOf(e.ratio, t.voterBlocks, VoteCount(t.depths));
    Poll(t.blocks,
         seq(|t.blocks|, i requires 0 <= i < |t.blocks| => Confident(e, Removals(e, mean, t.depths[i]), quantile)),
         t.voterChains as real)
  }

  /** More than three fifths of the chains voted, and the block has the most votes of every final
      split that leaves each block the votes it keeps. */
  ghost predicate Winner(t: Tally, e: Estimator, quantile: real, i: nat)
    requires e.ratio < 0.5 && i < |t.blocks| == |t.depths|
  {
    && 5 * VoteCount(t.depths) > 3 * t.voterChains
    && var p := KeptVotes(t, e, quantile);
       forall split, unseen | p.FinalSplit(split, unseen) :: p.Wins(i, split, unseen)
  }

  lemma PollIsKept(t: Tally, e: Estimator, quantile: real)
    requires t.Valid() && e.ratio < 0.5 && t.EnoughVotes()
    ensures t.ToPoll(e, quantile) == KeptVotes(t, e, quantile)
  {
    hide LowerBound, Confident, Removals, AdversaryMean, ShareOf, Bounds;
    SharesInProportion(e, t.voterBlocks, VoteCount(t.depths));
    var mean := ShareOf(e.ratio, t.voterBlocks, VoteCount(t.depths));
    var p, q := t.ToPoll(e, quantile), KeptVotes(t, e, quantile);
    forall i | 0 <= i < |t.blocks|
      ensures p.bounds[i] == q.bounds[i]
    {
      BoundsAt(e, mean, t.depths, quantile, i);
      BoundIsConfident(e, mean, t.depths[i], quantile);
    }
    assert p.bounds == q.bounds;
  }

  /** The elected leader is the winner, if there is one. */
  ghost predicate LeaderWins(t: Tally, e: Estimator, quantile: real, leader: Option<Hash>)
    requires e.ratio < 0.5 && |t.blocks| == |t.depths|
  {
    && (leader.Some? ==> leader.value in t.blocks)
    && forall i | 0 <= i < |t.blocks| :: leader == Some(t.blocks[i]) <==> Winner(t, e, quantile, i)
  }

  lemma ElectedIsListed(t: Tally, e: Estimator, quantile: real)
    requires t.Valid() && ValidEstimator(e) && quantile >= 0.0
    ensures ElectedLeader(t, e, quantile).Some? ==> ElectedLeader(t, e, quantile).value in t.blocks
  {
    if t.EnoughVotes() {
      PollIsValid(t, e, quantile);
    }
  }

  lemma ElectedIsWinner(t: Tally, e: Estimator, quantile: real)
    requires t.Valid() && ValidEstimator(e) && quantile >= 0.0
    ensures LeaderWins(t, e, quantile, ElectedLeader(t, e, quantile))
  {
    ThreeFifths(VoteCount(t.depths), t.voterChains);
    ElectedIsListed(t, e, quantile);
    forall i | 0 <= i < |t.blocks|
      ensures ElectedLeader(t, e, quantile) == Some(t.blocks[i]) <==> Winner(t, e, quantile, i)
    {
      hide ElectedLeader, KeptVotes, VoteCount;
      if t.EnoughVotes() {
        PollIsKept(t, e, quantile);
        ElectedIffAlwaysWins(t, e, quantile, i);
      } else {
        TooFew(t, e, quantile);
      }
    }
  }
}
