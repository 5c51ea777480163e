/** What the lower bound on the votes of a block means: every vote is removed independently with
    its own probability, and the bound lies a number of standard deviations below the expected
    number of votes that stay. */
module VoteBounds {
  import opened Prelude
  import opened ElectionSpec

  ghost function Shifted(f: nat -> real): nat -> real {
    (n: nat) => f(n + 1)
  }

  ghost function Counting(): nat -> real {
    (n: nat) => n as real
  }

  ghost function Squared(m: real): nat -> real {
    (n: nat) => (n as real - m) * (n as real - m)
  }

  /** `x` with probability `p`, and `y` otherwise. */
  ghost function Either(p: real, x: real, y: real): real {
    p * x + (1.0 - p) * y
  }

  /** The expected value of `f` at the number of votes that stay, when vote `i` is removed with
      probability `removal[i]`, independently of the others. */
  ghost function Expect(removal: seq<real>, f: nat -> real): real {
    if removal == [] then f(0)
    else Either(Last(removal), Expect(Init(removal), f), Expect(Init(removal), Shifted(f)))
  }

  /** The expected number of votes that stay, and its variance. */
  ghost function Expected(removal: seq<real>): real {
    Expect(removal, Counting())
  }

  ghost function Spread(removal: seq<real>): real {
    Expect(removal, Squared(Expected(removal)))
  }

  ghost function Combined(x: real, k: real, y: real, c: real): real {
    x + k * y + c
  }

  ghost predicate Combines(f: nat -> real, k: real, g: nat -> real, c: real, h: nat -> real) {
    forall n: nat :: h(n) == Combined(f(n), k, g(n), c)
  }

  lemma ShiftedCombines(f: nat -> real, k: real, g: nat -> real, c: real, h: nat -> real)
    requires Combines(f, k, g, c, h)
    ensures Combines(Shifted(f), k, Shifted(g), c, Shifted(h))
  {
    hide Combined;
  }

  lemma EitherCombines(p: real, f: real, f': real, k: real, g: real, g': real, c: real)
    ensures Either(p, Combined(f, k, g, c), Combined(f', k, g', c)) == Combined(Either(p, f, f'), k, Either(p, g, g'), c)
  {
  }

  /** Expectation is linear. */
  lemma {:induction false} ExpectLinear(removal: seq<real>, f: nat -> real, k: real, g: nat -> real, c: real, h: nat -> real)
    requires Combines(f, k, g, c, h)
    ensures Expect(removal, h) == Combined(Expect(removal, f), k, Expect(removal, g), c)
  {
    hide Combined, Either, Shifted;
    if removal != [] {
      var p, rest := Last(removal), Init(removal);
      ShiftedCombines(f, k, g, c, h);
      hide Combines;
      ExpectLinear(rest, f, k, g, c, h);
      ExpectLinear(rest, Shifted(f), k, Shifted(g), c, Shifted(h));
      EitherCombines(p, Expect(rest, f), Expect(rest, Shifted(f)), k, Expect(rest, g), Expect(rest, Shifted(g)), c);
    }
  }

  lemma OneMoreExpected(ps: seq<real>, p: real)
    ensures Expected(ps + [p]) == Expected(ps) + (1.0 - p)
  {
    SnocInit(ps, p);
    assert Combines(Counting(), 0.0, Counting(), 1.0, Shifted(Counting()));
    ExpectLinear(ps, Counting(), 0.0, Counting(), 1.0, Shifted(Counting()));
    hide Counting, Combines, Shifted;
    OneStays(p, Expected(ps));
  }

  lemma OneStays(p: real, m: real)
    ensures Either(p, m, m + 1.0) == m + (1.0 - p) && Combined(m, 0.0, m, 1.0) == m + 1.0
  {
  }

  lemma SquaredCombines(m: real, mean: real) returns (k: real, c: real)
    ensures Combines(Squared(mean), k, Counting(), c, Squared(m))
    ensures forall v :: Combined(v, k, mean, c) == v + (mean - m) * (mean - m)
  {
    k, c := 2.0 * (mean - m), m * m - mean * mean;
    forall n: nat
      ensures Squared(m)(n) == Combined(Squared(mean)(n), k, Counting()(n), c)
    {
      Squares(n as real, m, mean);
    }
    forall v: real
      ensures Combined(v, k, mean, c) == v + (mean - m) * (mean - m)
    {
      AroundMean(v, m, mean);
    }
  }

  lemma Squares(x: real, m: real, mean: real)
    ensures (x - m) * (x - m) == Combined((x - mean) * (x - mean), 2.0 * (mean - m), x, m * m - mean * mean)
  {
  }

  lemma AroundMean(v: real, m: real, mean: real)
    ensures Combined(v, 2.0 * (mean - m), mean, m * m - mean * mean) == v + (mean - m) * (mean - m)
  {
  }

  /** The mean of the squared distance to any point. */
  lemma AroundPoint(ps: seq<real>, m: real)
    ensures Expect(ps, Squared(m)) == Spread(ps) + (Expected(ps) - m) * (Expected(ps) - m)
  {
    hide Expect, Squared, Combined, Combines, Counting;
    var k, c := SquaredCombines(m, Expected(ps));
    ExpectLinear(ps, Squared(Expected(ps)), k, Counting(), c, Squared(m));
  }

  lemma ShiftedSquare(ps: seq<real>, m: real)
    ensures Expect(ps, Shifted(Squared(m))) == Expect(ps, Squared(m - 1.0))
  {
    hide Expect;
    forall n: nat
      ensures Shifted(Squared(m))(n) == Combined(Squared(m - 1.0)(n), 0.0, Counting()(n), 0.0)
    {
    }
    ExpectLinear(ps, Squared(m - 1.0), 0.0, Counting(), 0.0, Shifted(Squared(m)));
  }

  /** Independent votes add up their variances. */
  lemma OneMoreSpread(ps: seq<real>, p: real)
    ensures Spread(ps + [p]) == Spread(ps) + OneVariance(p)
  {
    hide Squared, Shifted, Counting, Either;
    SnocInit(ps, p);
    OneMoreExpected(ps, p);
    var m' := Expected(ps) + (1.0 - p);
    AroundPoint(ps, m');
    AroundPoint(ps, m' - 1.0);
    ShiftedSquare(ps, m');
    TwoCases(p, Expected(ps), Spread(ps), m', Expect(ps, Squared(m')), Expect(ps, Squared(m' - 1.0)));
  }

  lemma TwoCases(p: real, mean: real, v: real, m: real, x: real, y: real)
    requires m == mean + (1.0 - p) && x == v + (mean - m) * (mean - m) && y == v + (mean - (m - 1.0)) * (mean - (m - 1.0))
    ensures Either(p, x, y) == v + p * (1.0 - p)
  {
    assert mean - m == -(1.0 - p) && mean - (m - 1.0) == p;
    Cubes(p, v);
  }

  lemma Cubes(p: real, v: real)
    ensures Either(p, v + (-(1.0 - p)) * (-(1.0 - p)), v + p * p) == v + p * (1.0 - p)
  {
  }

  /** The chances of removal of votes of these depths. */
  function Removals(e: Estimator, mean: real, depths: seq<nat>): seq<real>
    requires e.ratio < 0.5
  {
    seq(|depths|, i requires 0 <= i < |depths| => Removal(e, mean, depths[i]))
  }

  /** The two running sums of the code are the expected number of votes that stay and its
      variance. */
  lemma {:induction false} SumsAreMoments(e: Estimator, mean: real, depths: seq<nat>)
    requires e.ratio < 0.5
    ensures Mean(e, mean, depths) == Expected(Removals(e, mean, depths))
    ensures Variance(e, mean, depths) == Spread(Removals(e, mean, depths))
  {
    hide Removal, Expected, Spread;
    var ps := Removals(e, mean, depths);
    if depths == [] {
      assert ps == [];
      NoVotes();
    } else {
      SumsAreMoments(e, mean, Init(depths));
      assert Init(ps) == Removals(e, mean, Init(depths)) && Last(ps) == Removal(e, mean, Last(depths));
      assert ps == Init(ps) + [Last(ps)];
      OneMoreExpected(Init(ps), Last(ps));
      OneMoreSpread(Init(ps), Last(ps));
    }
  }

  lemma NoVotes()
    ensures Expected([]) == 0.0 && Spread([]) == 0.0
  {
  }

  /** `quantile` standard deviations below the expected number of votes that stay, but not below
      zero. */
  ghost function Confident(e: Estimator, removal: seq<real>, quantile: real): real {
    var low := Expected(removal) - e.root(Spread(removal)) * quantile;
    if low > 0.0 then low else 0.0
  }

  lemma BoundIsConfident(e: Estimator, mean: real, depths: seq<nat>, quantile: real)
    requires e.ratio < 0.5
    ensures LowerBound(e, mean, depths, quantile) == Confident(e, Removals(e, mean, depths), quantile)
  {
    hide Mean, Variance, Expected, Spread, Removals;
    SumsAreMoments(e, mean, depths);
  }

  /** The variances of the single votes. */
  ghost function Variances(removal: seq<real>): seq<real> {
    seq(|removal|, i requires 0 <= i < |removal| => OneVariance(removal[i]))
  }

  ghost function OneVariance(p: real): real {
    p * (1.0 - p)
  }

  lemma VariancesSnoc(ps: seq<real>, p: real)
    ensures Sum(ps + [p]) == Sum(ps) + p && Sum(Variances(ps + [p])) == Sum(Variances(ps)) + OneVariance(p)
  {
    hide OneVariance;
    SnocInit(ps, p);
    assert Variances(ps + [p]) == Variances(ps) + [OneVariance(p)];
    SnocInit(Variances(ps), OneVariance(p));
  }

  lemma {:induction false} MomentsAreSums(ps: seq<real>)
    ensures Expected(ps) == |ps| as real - Sum(ps) && Spread(ps) == Sum(Variances(ps))
  {
    if ps == [] {
      NoVotes();
    } else {
      hide Expected, Spread, Variances, Sum, OneVariance;
      MomentsAreSums(Init(ps));
      assert ps == Init(ps) + [Last(ps)];
      OneMoreExpected(Init(ps), Last(ps));
      OneMoreSpread(Init(ps), Last(ps));
      VariancesSnoc(Init(ps), Last(ps));
    }
  }

  lemma {:induction false} SumOfZeros(s: seq<real>)
    requires forall i | 0 <= i < |s| :: s[i] == 0.0
    ensures Sum(s) == 0.0
  {
    if s != [] {
      SumOfZeros(Init(s));
    }
  }

  /** Votes that cannot be removed count in full, at every quantile. */
  lemma SafeVotesCount(e: Estimator, mean: real, depths: seq<nat>, quantile: real)
    requires e.ratio < 0.5 && e.root(0.0) == 0.0 && forall d | d in depths :: Removal(e, mean, d) == 0.0
    ensures LowerBound(e, mean, depths, quantile) == |depths| as real
  {
    hide LowerBound, Removal;
    var ps := Removals(e, mean, depths);
    BoundIsConfident(e, mean, depths, quantile);
    MomentsAreSums(ps);
    SumOfZeros(ps);
    SumOfZeros(Variances(ps));
  }

  /** As long as it is positive, the bound falls with the quantile by one standard deviation per
      unit. */
  lemma QuantileStep(e: Estimator, mean: real, depths: seq<nat>, low: real, high: real)
    requires e.ratio < 0.5 && LowerBound(e, mean, depths, low) > 0.0 && LowerBound(e, mean, depths, high) > 0.0
    ensures LowerBound(e, mean, depths, low) - LowerBound(e, mean, depths, high) ==
            e.root(Sum(Variances(Removals(e, mean, depths)))) * (high - low)
  {
    hide LowerBound, Removals, Variances, Expected, Spread;
    BoundIsConfident(e, mean, depths, low);
    BoundIsConfident(e, mean, depths, high);
    MomentsAreSums(Removals(e, mean, depths));
    Distribute(e.root(Sum(Variances(Removals(e, mean, depths)))), high, low);
  }

  lemma Distribute(d: real, high: real, low: real)
    ensures d * (high - low) == d * high - d * low
  {
  }

  /** The chance that an adversary with `k` blocks removes a vote of this depth: it is ahead by two
      blocks, or it has fewer blocks than the depth and catches up. With as many blocks as the
      depth, or one more, the code takes the vote for safe. */
  function Chance(e: Estimator, depth: nat, k: nat): real
    requires e.ratio < 0.5
  {
    if k >= depth + 2 then 1.0 else if k >= depth then 0.0 else Power(CatchUp(e), depth - k + 1)
  }

  ghost function ChanceBelow(e: Estimator, mean: real, depth: nat, n: nat): real
    requires e.ratio < 0.5
  {
    if n == 0 then 0.0 else ChanceBelow(e, mean, depth, n - 1) + e.pmf(mean, n - 1) * Chance(e, depth, n - 1)
  }

  /** The chance of removal is the chance over all numbers of blocks that the adversary may have:
      those below `n` one by one, and the rest, all ahead, together. */
  lemma {:induction false} RemovalIsExpectedChance(e: Estimator, mean: real, depth: nat, n: nat)
    requires e.ratio < 0.5 && n >= depth + 2
    ensures Removal(e, mean, depth) == ChanceBelow(e, mean, depth, n) + (1.0 - Mass(e, mean, n))
  {
    if n == depth + 2 {
      CatchingUp(e, mean, depth, depth);
      hide Power, CatchUp;
      assert ChanceBelow(e, mean, depth, depth + 1) == ChanceBelow(e, mean, depth, depth) + e.pmf(mean, depth) * 0.0;
      assert ChanceBelow(e, mean, depth, depth + 2) == ChanceBelow(e, mean, depth, depth + 1) + e.pmf(mean, depth + 1) * 0.0;
    } else {
      hide Removal, Power, CatchUp;
      RemovalIsExpectedChance(e, mean, depth, n - 1);
    }
  }

  lemma {:induction false} CatchingUp(e: Estimator, mean: real, depth: nat, n: nat)
    requires e.ratio < 0.5 && n <= depth
    ensures ChanceBelow(e, mean, depth, n) == Overtake(e, mean, depth, n)
  {
    hide Power, CatchUp;
    if n > 0 {
      CatchingUp(e, mean, depth, n - 1);
      assert Chance(e, depth, n - 1) == Power(CatchUp(e), depth - (n - 1) + 1);
      assert OvertakeFrom(e, mean, depth, n - 1) == e.pmf(mean, n - 1) * Chance(e, depth, n - 1);
      hide Chance, OvertakeFrom;
    }
  }

  /** So if the adversary surely has `k` blocks, it is the chance with `k` blocks. */
  lemma RemovalBy(e: Estimator, mean: real, depth: nat, k: nat)
    requires e.ratio < 0.5 && forall j: nat :: e.pmf(mean, j) == if j == k then 1.0 else 0.0
    ensures Removal(e, mean, depth) == Chance(e, depth, k)
  {
    hide Chance, Removal;
    var n := if k + 1 < depth + 2 then depth + 2 else k + 1;
    RemovalIsExpectedChance(e, mean, depth, n);
    PointMass(e, mean, depth, k, n);
  }

  lemma {:induction false} PointMass(e: Estimator, mean: real, depth: nat, k: nat, n: nat)
    requires e.ratio < 0.5 && forall j: nat :: e.pmf(mean, j) == if j == k then 1.0 else 0.0
    ensures Mass(e, mean, n) == if k < n then 1.0 else 0.0
    ensures ChanceBelow(e, mean, depth, n) == if k < n then Chance(e, depth, k) else 0.0
  {
    hide Chance;
    if n > 0 {
      PointMass(e, mean, depth, k, n - 1);
    }
  }
}
