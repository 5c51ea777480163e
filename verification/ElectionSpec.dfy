/** Electing the leader of a proposer level: the decision of `proposer_leader`,
    src/blockchain/mod.rs, over real numbers in place of 32-bit floats. */
module ElectionSpec {
  import opened Prelude

  /** What the decision takes from outside: the Poisson mass function (by mean and count), the
      square root, and the assumed share of the adversary. */
  datatype Estimator = Estimator(pmf: (real, nat) -> real, root: real -> real, ratio: real)

  /** The mass of the counts below `n`. */
  function Mass(e: Estimator, mean: real, n: nat): real {
    if n == 0 then 0.0 else Mass(e, mean, n - 1) + e.pmf(mean, n - 1)
  }

  ghost predicate ValidEstimator(e: Estimator) {
    && 0.0 < e.ratio < 0.5
    && (forall mean, k: nat | mean > 0.0 :: e.pmf(mean, k) >= 0.0)
    && (forall mean, n: nat | mean > 0.0 :: Mass(e, mean, n) <= 1.0)
    && (forall x | x >= 0.0 :: e.root(x) >= 0.0)
  }

  function Power(x: real, n: nat): real {
    if n == 0 then 1.0 else x * Power(x, n - 1)
  }

  /** How likely the adversary catches up one block. */
  function CatchUp(e: Estimator): real
    requires e.ratio < 0.5
  {
    e.ratio / (1.0 - e.ratio)
  }

  /** The chance that the adversary has mined `k` blocks and overtakes the others. */
  function OvertakeFrom(e: Estimator, mean: real, depth: nat, k: nat): real
    requires e.ratio < 0.5 && k < depth
  {
    e.pmf(mean, k) * Power(CatchUp(e), depth - k + 1)
  }

  /** The chance that the adversary has mined fewer than `n` blocks and still overtakes. */
  function Overtake(e: Estimator, mean: real, depth: nat, n: nat): real
    requires e.ratio < 0.5 && n <= depth
  {
    if n == 0 then 0.0
    else Overtake(e, mean, depth, n - 1) + OvertakeFrom(e, mean, depth, n - 1)
  }

  /** The chance that a vote of this depth is removed. */
  function Removal(e: Estimator, mean: real, depth: nat): real
    requires e.ratio < 0.5
  {
    1.0 - Mass(e, mean, depth + 2) + Overtake(e, mean, depth, depth)
  }

  lemma {:induction false} PowerInUnit(x: real, n: nat)
    requires 0.0 <= x <= 1.0
    ensures 0.0 <= Power(x, n) <= 1.0
  {
    if n > 0 {
      PowerInUnit(x, n - 1);
      ProductInUnit(x, Power(x, n - 1), 1.0);
    }
  }

  lemma ProductInUnit(x: real, y: real, bound: real)
    requires 0.0 <= x <= 1.0 && 0.0 <= y <= bound
    ensures 0.0 <= x * y <= bound && y * x == x * y
  {
    NonNegProduct(x, y);
    NonNegProduct(1.0 - x, y);
    assert (1.0 - x) * y == y - x * y;
  }

  lemma NonNegProduct(x: real, y: real)
    requires x >= 0.0 && y >= 0.0
    ensures x * y >= 0.0
  {
  }

  lemma NonNegFactor(x: real, y: real)
    requires x * y >= 0.0 && y > 0.0
    ensures x >= 0.0
  {
  }

  lemma OvertakeFromBound(e: Estimator, mean: real, depth: nat, k: nat)
    requires ValidEstimator(e) && mean > 0.0 && k < depth
    ensures 0.0 <= OvertakeFrom(e, mean, depth, k) <= e.pmf(mean, k)
  {
    hide Power, CatchUp;
    CatchUpInUnit(e);
    PowerInUnit(CatchUp(e), depth - k + 1);
    ProductInUnit(Power(CatchUp(e), depth - k + 1), e.pmf(mean, k), e.pmf(mean, k));
  }

  lemma {:induction false} OvertakeBound(e: Estimator, mean: real, depth: nat, n: nat)
    requires ValidEstimator(e) && mean > 0.0 && n <= depth
    ensures 0.0 <= Overtake(e, mean, depth, n) <= Mass(e, mean, n)
  {
    hide OvertakeFrom;
    if n > 0 {
      OvertakeBound(e, mean, depth, n - 1);
      OvertakeFromBound(e, mean, depth, n - 1);
    }
  }

  lemma CatchUpInUnit(e: Estimator)
    requires 0.0 < e.ratio < 0.5
    ensures 0.0 <= CatchUp(e) <= 1.0
  {
    var rest, r := 1.0 - e.ratio, CatchUp(e);
    assert r * rest == e.ratio;
    assert (1.0 - r) * rest == rest - r * rest;
    NonNegFactor(r, rest);
    NonNegFactor(1.0 - r, rest);
  }

  /** It is a probability. */
  lemma RemovalInUnit(e: Estimator, mean: real, depth: nat)
    requires ValidEstimator(e) && mean > 0.0
    ensures 0.0 <= Removal(e, mean, depth) <= 1.0
  {
    OvertakeBound(e, mean, depth, depth);
    assert Mass(e, mean, depth + 1) == Mass(e, mean, depth) + e.pmf(mean, depth);
    assert Mass(e, mean, depth + 2) == Mass(e, mean, depth + 1) + e.pmf(mean, depth + 1);
  }

  /** Mean and variance of the number of votes that stay. */
  function Mean(e: Estimator, mean: real, depths: seq<nat>): real
    requires e.ratio < 0.5
  {
    if depths == [] then 0.0 else Mean(e, mean, Init(depths)) + (1.0 - Removal(e, mean, Last(depths)))
  }

  function Variance(e: Estimator, mean: real, depths: seq<nat>): real
    requires e.ratio < 0.5
  {
    if depths == [] then 0.0
    else
      var p := Removal(e, mean, Last(depths));
      Variance(e, mean, Init(depths)) + p * (1.0 - p)
  }

  lemma {:induction false} MeanAndVarianceBounds(e: Estimator, mean: real, depths: seq<nat>)
    requires ValidEstimator(e) && mean > 0.0
    ensures 0.0 <= Mean(e, mean, depths) <= |depths| as real && Variance(e, mean, depths) >= 0.0
  {
    if depths != [] {
      hide Removal, ValidEstimator;
      MeanAndVarianceBounds(e, mean, Init(depths));
      RemovalInUnit(e, mean, Last(depths));
      var p := Removal(e, mean, Last(depths));
      ProductInUnit(p, 1.0 - p, 1.0 - p);
    }
  }

  /** The lower bound on the votes of a block at a confidence quantile. */
  function LowerBound(e: Estimator, mean: real, depths: seq<nat>, quantile: real): real
    requires e.ratio < 0.5
  {
    var low := Mean(e, mean, depths) - e.root(Variance(e, mean, depths)) * quantile;
    if low > 0.0 then low else 0.0
  }

  lemma LowerBoundRange(e: Estimator, mean: real, depths: seq<nat>, quantile: real)
    requires ValidEstimator(e) && mean > 0.0 && quantile >= 0.0
    ensures 0.0 <= LowerBound(e, mean, depths, quantile) <= |depths| as real
  {
    hide Mean, Variance;
    MeanAndVarianceBounds(e, mean, depths);
    var deviation := e.root(Variance(e, mean, depths));
    NonNegProduct(deviation, quantile);
  }

  lemma LowerBoundAntitone(e: Estimator, mean: real, depths: seq<nat>, low: real, high: real)
    requires ValidEstimator(e) && mean > 0.0 && low <= high
    ensures LowerBound(e, mean, depths, high) <= LowerBound(e, mean, depths, low)
  {
    hide Mean, Variance;
    MeanAndVarianceBounds(e, mean, depths);
    var deviation := e.root(Variance(e, mean, depths));
    NonNegProduct(deviation, high - low);
    assert deviation * (high - low) == deviation * high - deviation * low;
  }

  function Sum(s: seq<real>): real {
    if s == [] then 0.0 else Sum(Init(s)) + Last(s)
  }

  /** Every block of the level with the lower bound on its votes. */
  datatype Poll = Poll(blocks: seq<Hash>, bounds: seq<real>, total: real)
  {
    ghost predicate Valid() {
      && |blocks| == |bounds| && NoDup(blocks)
      && (forall x | x in bounds :: x >= 0.0)
      && Sum(bounds) <= total
    }

    /** The votes not accounted for by any lower bound. */
    function Remaining(): real {
      total - Sum(bounds)
    }

    /** Neither an unseen block nor another known block can catch up with block `i`. */
    ghost predicate Unbeatable(i: nat)
      requires |blocks| == |bounds| && i < |blocks|
    {
      && bounds[i] > Remaining()
      && forall j | 0 <= j < |blocks| && j != i :: CannotPass(i, j)
    }

    ghost predicate CannotPass(i: nat, j: nat)
      requires |blocks| == |bounds| && i < |blocks| && j < |blocks|
    {
      bounds[j] + Remaining() < bounds[i] || (bounds[j] + Remaining() == bounds[i] && blocks[i] < blocks[j])
    }

    /** A final split of the votes: every known block gets at least its lower bound, an unseen
        block gets `unseen`, and no more votes are cast than there are chains. */
    ghost predicate FinalSplit(split: seq<real>, unseen: real)
      requires |blocks| == |bounds|
    {
      && |split| == |bounds| && unseen >= 0.0
      && (forall j | 0 <= j < |split| :: split[j] >= bounds[j])
      && Sum(split) + unseen <= total
    }

    /** Block `i` has the most votes of a split; ties among known blocks go to the lower hash. */
    ghost predicate Wins(i: nat, split: seq<real>, unseen: real)
      requires |split| == |blocks| && i < |blocks|
    {
      && split[i] > unseen
      && forall j | 0 <= j < |blocks| && j != i :: split[j] < split[i] || (split[j] == split[i] && blocks[i] < blocks[j])
    }
  }

  lemma {:induction false} SumUpdate(s: seq<real>, i: nat, x: real)
    requires i < |s|
    ensures Sum(s[i := x]) == Sum(s) - s[i] + x
  {
    if i == |s| - 1 {
      assert Init(s[i := x]) == Init(s);
    } else {
      SumUpdate(Init(s), i, x);
      assert Init(s[i := x]) == Init(s)[i := x];
    }
  }

  lemma {:induction false} SumMonotone(a: seq<real>, b: seq<real>)
    requires |a| == |b| && forall j | 0 <= j < |a| :: a[j] <= b[j]
    ensures Sum(a) <= Sum(b)
  {
    if a != [] {
      SumMonotone(Init(a), Init(b));
    }
  }

  /** What is left for one block if every other block keeps its bound. */
  lemma OneBlockLimit(p: Poll, split: seq<real>, unseen: real, j: nat)
    requires p.Valid() && p.FinalSplit(split, unseen) && j < |split|
    ensures split[j] + unseen <= p.bounds[j] + p.Remaining()
  {
    SumUpdate(split, j, p.bounds[j]);
    SumMonotone(p.bounds, split[j := p.bounds[j]]);
  }

  /** Moving a pair of blocks to a split leaves no more than the remaining votes between them. */
  lemma TwoBlockLimit(p: Poll, split: seq<real>, unseen: real, i: nat, j: nat)
    requires p.Valid() && p.FinalSplit(split, unseen) && i < |split| && j < |split| && i != j
    ensures (split[i] - p.bounds[i]) + (split[j] - p.bounds[j]) + unseen <= p.Remaining()
  {
    var s := split[i := p.bounds[i]];
    SumUpdate(split, i, p.bounds[i]);
    SumUpdate(s, j, p.bounds[j]);
    SumMonotone(p.bounds, s[j := p.bounds[j]]);
  }

  lemma UnbeatableWins(p: Poll, i: nat, split: seq<real>, unseen: real)
    requires p.Valid() && i < |p.blocks| && p.Unbeatable(i) && p.FinalSplit(split, unseen)
    ensures p.Wins(i, split, unseen)
  {
    OneBlockLimit(p, split, unseen, i);
    forall j | 0 <= j < |p.blocks| && j != i
      ensures split[j] < split[i] || (split[j] == split[i] && p.blocks[i] < p.blocks[j])
    {
      TwoBlockLimit(p, split, unseen, i, j);
      assert p.CannotPass(i, j);
    }
  }

  lemma WinnerIsUnbeatable(p: Poll, i: nat)
    requires p.Valid() && i < |p.blocks|
    requires forall split, unseen | p.FinalSplit(split, unseen) :: p.Wins(i, split, unseen)
    ensures p.Unbeatable(i)
  {
    assert p.FinalSplit(p.bounds, p.Remaining());
    assert p.Wins(i, p.bounds, p.Remaining());
    forall j | 0 <= j < |p.blocks| && j != i
      ensures p.CannotPass(i, j)
    {
      var split := p.bounds[j := p.bounds[j] + p.Remaining()];
      SumUpdate(p.bounds, j, p.bounds[j] + p.Remaining());
      assert p.FinalSplit(split, 0.0);
      assert p.Wins(i, split, 0.0);
    }
  }

  /** The test of `proposer_leader` is exact: a block is unbeatable if and only if it wins under
      every final split of the votes. */
  lemma UnbeatableIffAlwaysWins(p: Poll, i: nat)
    requires p.Valid() && i < |p.blocks|
    ensures p.Unbeatable(i) <==> forall split, unseen | p.FinalSplit(split, unseen) :: p.Wins(i, split, unseen)
  {
    if p.Unbeatable(i) {
      forall split, unseen | p.FinalSplit(split, unseen)
        ensures p.Wins(i, split, unseen)
      {
        UnbeatableWins(p, i, split, unseen);
      }
    }
    if forall split, unseen | p.FinalSplit(split, unseen) :: p.Wins(i, split, unseen) {
      WinnerIsUnbeatable(p, i);
    }
  }

  lemma UnbeatableIsUnique(p: Poll, i: nat, j: nat)
    requires p.Valid() && i < |p.blocks| && j < |p.blocks| && p.Unbeatable(i) && p.Unbeatable(j)
    ensures i == j
  {
    assert i != j ==> p.CannotPass(i, j);
    assert i != j ==> p.CannotPass(j, i);
  }

  /** Raising lower bounds, all at once and by any amounts, keeps an unbeatable block unbeatable. */
  lemma HigherBoundsKeepLeader(p: Poll, p': Poll, i: nat)
    requires p.Valid() && p'.Valid() && p'.blocks == p.blocks && p'.total == p.total
    requires forall j | 0 <= j < |p.bounds| :: p.bounds[j] <= p'.bounds[j]
    requires i < |p.blocks| && p.Unbeatable(i)
    ensures p'.Unbeatable(i)
  {
    SumMonotone(p.bounds, p'.bounds);
    forall j | 0 <= j < |p.blocks| && j != i
      ensures p'.CannotPass(i, j)
    {
      assert p.CannotPass(i, j);
      var s, s' := p.bounds[j := 0.0], p'.bounds[j := 0.0];
      SumUpdate(p.bounds, j, 0.0);
      SumUpdate(p'.bounds, j, 0.0);
      SumMonotone(s, s');
    }
  }

  /** The unbeatable block of a poll, if there is one. */
  ghost function Leader(p: Poll): Option<Hash>
    requires p.Valid()
  {
    if i: nat :| i < |p.blocks| && p.Unbeatable(i) then Some(p.blocks[i]) else None
  }

  lemma LeaderIs(p: Poll, i: nat)
    requires p.Valid() && i < |p.blocks|
    ensures Leader(p) == Some(p.blocks[i]) <==> p.Unbeatable(i)
  {
    if p.Unbeatable(i) {
      var k: nat :| k < |p.blocks| && p.Unbeatable(k) && Leader(p) == Some(p.blocks[k]);
      UnbeatableIsUnique(p, i, k);
    }
  }
}
