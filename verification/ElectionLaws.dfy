/** Elections whose outcome is plain: votes that nobody can take away decide at once, and the two
    quantiles of the configuration do make a difference. */
module ElectionLaws {
  import opened Prelude
  import opened ElectionSpec
  import opened VoteBounds
  import opened Election

  lemma {:induction false} OnlyOneCounts(s: seq<real>, i: nat)
    requires i < |s| && forall j | 0 <= j < |s| && j != i :: s[j] == 0.0
    ensures Sum(s) == s[i]
  {
    if i == |s| - 1 {
      SumOfZeros(Init(s));
    } else {
      OnlyOneCounts(Init(s), i);
    }
  }

  lemma {:induction false} OnlyOneVoted(depths: seq<seq<nat>>, i: nat)
    requires i < |depths| && forall j | 0 <= j < |depths| && j != i :: depths[j] == []
    ensures VoteCount(depths) == |depths[i]|
  {
    if i == |depths| - 1 {
      NobodyVoted(Init(depths));
    } else {
      OnlyOneVoted(Init(depths), i);
    }
  }

  lemma {:induction false} NobodyVoted(depths: seq<seq<nat>>)
    requires forall j | 0 <= j < |depths| :: depths[j] == []
    ensures VoteCount(depths) == 0
  {
    if depths != [] {
      NobodyVoted(Init(depths));
    }
  }

  /** If all chains vote for one block and none of these votes can be removed, the block is
      elected, at every quantile. */
  lemma UnanimousIsElected(t: Tally, e: Estimator, quantile: real, i: nat)
    requires t.Valid() && ValidEstimator(e) && e.root(0.0) == 0.0 && quantile >= 0.0
    requires i < |t.blocks| && |t.depths[i]| == t.voterChains > 0 && forall j | 0 <= j < |t.depths| && j != i :: t.depths[j] == []
    requires forall d | d in t.depths[i] :: Removal(e, AdversaryMean(e, t.voterBlocks, t.voterChains), d) == 0.0
    ensures ElectedLeader(t, e, quantile) == Some(t.blocks[i])
  {
    OnlyOneVoted(t.depths, i);
    var mean := AdversaryMean(e, t.voterBlocks, t.voterChains);
    PollIsValid(t, e, quantile);
    var p := t.ToPoll(e, quantile);
    hide AdversaryMean, LowerBound, ValidEstimator, Removal, Bounds;
    forall j | 0 <= j < |p.bounds|
      ensures p.bounds[j] == if j == i then t.voterChains as real else 0.0
    {
      BoundsAt(e, mean, t.depths, quantile, j);
      SafeVotesCount(e, mean, t.depths[j], quantile);
    }
    OnlyOneCounts(p.bounds, i);
    LeaderIs(p, i);
  }

  /** An adversary with a third of the power that has mined nothing yet. */
  const MODEST := Estimator((mean: real, k: nat) => if k == 0 then 1.0 else 0.0, (x: real) => if x == 0.5625 then 0.75 else 0.0, 1.0 / 3.0)

  /** Three chains, each with one vote for the only block of the level, one block deep. */
  const FRESH := Tally([7], [[1, 1, 1]], 3, 3)

  lemma ModestIsValid()
    ensures ValidEstimator(MODEST)
  {
    forall mean: real, n: nat
      ensures Mass(MODEST, mean, n) <= 1.0
    {
      PointMass(MODEST, mean, 0, 0, n);
    }
  }

  lemma FreshRemoval(mean: real)
    ensures Removal(MODEST, mean, 1) == 0.25
  {
    hide Removal;
    RemovalBy(MODEST, mean, 1, 0);
    assert CatchUp(MODEST) == 0.5;
    assert Power(0.5, 2) == 0.5 * Power(0.5, 1) && Power(0.5, 1) == 0.5 * Power(0.5, 0);
  }

  lemma FreshVotes(mean: real, quantile: real)
    requires quantile <= 1.0
    ensures LowerBound(MODEST, mean, [1, 1, 1], quantile) == 2.25 - 0.75 * quantile
  {
    hide LowerBound, Removal, Expected, Spread;
    FreshRemoval(mean);
    var ps := [0.25, 0.25, 0.25];
    assert Removals(MODEST, mean, [1, 1, 1]) == ps;
    assert Variances(ps) == [0.1875, 0.1875, 0.1875];
    BoundIsConfident(MODEST, mean, [1, 1, 1], quantile);
    hide Removals, Variances;
    MomentsAreSums(ps);
    ThreeTimes(0.25);
    ThreeTimes(0.1875);
    hide Sum;
    assert Expected(ps) == 2.25 && Spread(ps) == 0.5625 && MODEST.root(0.5625) == 0.75;
  }

  lemma ThreeTimes(x: real)
    ensures Sum([x, x, x]) == 3.0 * x && Sum([x]) == x
  {
    assert Init([x, x, x]) == [x, x] && Init([x, x]) == [x] && Init([x]) == [];
    assert Sum([x]) == Sum([]) + x;
    assert Sum([x, x]) == Sum([x]) + x;
    assert Sum([x, x, x]) == Sum([x, x]) + x;
  }

  /** The block is safe enough to stay a leader at half a standard deviation, and not safe enough
      to become one at a full one. */
  lemma QuantilesDiffer()
    ensures FRESH.Valid() && ValidEstimator(MODEST)
    ensures ElectedLeader(FRESH, MODEST, 0.5) == Some(7) && ElectedLeader(FRESH, MODEST, 1.0) == None
  {
    assert Init([[1, 1, 1]]) == [] && VoteCount([[1, 1, 1]]) == 3;
    ModestIsValid();
    FreshLeader(0.5, 1.875);
    FreshLeader(1.0, 1.5);
  }

  lemma FreshLeader(quantile: real, bound: real)
    requires 0.0 <= quantile <= 1.0 && bound == 2.25 - 0.75 * quantile && FRESH.Valid() && FRESH.EnoughVotes() && ValidEstimator(MODEST)
    ensures ElectedLeader(FRESH, MODEST, quantile) == if bound > 1.5 then Some(7) else None
  {
    hide Bounds, LowerBound, AdversaryMean, ValidEstimator, Sum;
    var mean := AdversaryMean(MODEST, 3, VoteCount(FRESH.depths));
    BoundsAt(MODEST, mean, [[1, 1, 1]], quantile, 0);
    FreshVotes(mean, quantile);
    PollIsValid(FRESH, MODEST, quantile);
    var p := FRESH.ToPoll(MODEST, quantile);
    assert p.bounds == [bound];
    ThreeTimes(bound);
    LeaderIs(p, 0);
    assert p.Unbeatable(0) <==> bound > 1.5;
  }
}
