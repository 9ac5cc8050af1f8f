/**
  Fitting a beta distribution to the measured load of a node by its first two moments, over
  real numbers, and the clamp on the deviation that makes the fit always possible.
 */
module BetaFit {

  /** Allowed share of the largest variance a beta distribution of a given mean can have. */
  const MAX_VARIANCE_ALLOWANCE := 0.99

  function Scaled(x: real, factor: real): real
  {
    x * factor
  }

  function Square(x: real): real
  {
    Scaled(x, x)
  }

  function FirstMoment(alpha: real, beta: real): real
    requires alpha > 0.0 && beta > 0.0
  {
    alpha / (alpha + beta)
  }

  function SecondMoment(alpha: real, beta: real): real
    requires alpha > 0.0 && beta > 0.0
  {
    FirstMoment(alpha, beta) * (alpha + 1.0) / (alpha + beta + 1.0)
  }

  function ThirdMoment(alpha: real, beta: real): real
    requires alpha > 0.0 && beta > 0.0
  {
    SecondMoment(alpha, beta) * (alpha + 2.0) / (alpha + beta + 2.0)
  }

  /** Variance of the two-point distribution on 0 and 1 with this mean. */
  function Spread(mean: real): real
  {
    mean * (1.0 - mean)
  }

  function MaxVariance(mean: real): real
  {
    if 0.0 < mean < 1.0 then Spread(mean) else 0.0
  }

  /** A mean and variance that some beta distribution has, or the variance zero. */
  ghost predicate IsFeasible(mean: real, variance: real)
  {
    0.0 <= mean <= 1.0 && 0.0 <= variance < Spread(mean)
  }

  /** The sum of the shape parameters with this mean and variance. */
  function Scale(mean: real, variance: real): real
    requires variance != 0.0
  {
    Spread(mean) / variance - 1.0
  }

  class BetaDistribution {
    var alpha: real
    var beta: real
    var firstMoment: real
    var secondMoment: real
    var thirdMoment: real

    /** Shape parameters are positive and the moments are theirs. */
    ghost predicate Valid()
      reads this
    {
      && alpha > 0.0 && beta > 0.0
      && firstMoment == FirstMoment(alpha, beta) && secondMoment == SecondMoment(alpha, beta)
      && thirdMoment == ThirdMoment(alpha, beta)
    }

    constructor (alpha: real, beta: real)
      requires alpha > 0.0 && beta > 0.0
      ensures Valid() && this.alpha == alpha && this.beta == beta
    {
      this.alpha, this.beta := alpha, beta;
      firstMoment, secondMoment, thirdMoment := 0.0, 0.0, 0.0;
      new;
      ComputeMoments();
    }

    method ComputeMoments()
      requires alpha > 0.0 && beta > 0.0
      modifies this
      ensures Valid() && alpha == old(alpha) && beta == old(beta)
    {
      firstMoment := alpha / (alpha + beta);
      secondMoment := firstMoment * (alpha + 1.0) / (alpha + beta + 1.0);
      thirdMoment := secondMoment * (alpha + 2.0) / (alpha + beta + 2.0);
    }

    /**
      Takes on the shape with the given moments, if there is one. `tiny` is the least positive
      number of the machine, below which the scale of the shape is not allowed to fall.
     */
    method MatchMoments(m1: real, m2: real, tiny: real) returns (ok: bool)
      requires Valid() && m2 - Square(m1) != 0.0 && tiny > 0.0
      modifies this
      ensures Valid()
      ensures ok <==> IsFeasible(m1, m2 - Square(m1))
      ensures ok <==> 0.0 <= m1 <= 1.0 && 0.0 <= m2 - m1 * m1 < m1 * (1.0 - m1)
      ensures !ok ==> alpha == old(alpha) && beta == old(beta)
      ensures ok && Scale(m1, m2 - Square(m1)) >= tiny ==> firstMoment == m1 && secondMoment == m2
    {
      hide FirstMoment, SecondMoment, ThirdMoment, Square, Spread, Scaled;
      var variance := m2 - Square(m1);
      FeasibleMeans(m1, m2);
      if m1 < 0.0 || m1 > 1.0 || variance < 0.0 || variance >= Spread(m1) {
        return false;
      }
      MeanIsInside(m1, variance);
      var scale := Spread(m1) / variance - 1.0;
      if scale < tiny {
        scale := tiny;
      }
      ShapeIsPositive(m1, scale);
      alpha := Scaled(m1, scale);
      beta := Scaled(1.0 - m1, scale);
      ComputeMoments();
      if Scale(m1, variance) >= tiny {
        MomentsMatch(m1, variance, scale, alpha, beta);
      }
      return true;
    }
  }

  lemma MomentsMean(alpha: real, beta: real)
    requires alpha > 0.0 && beta > 0.0
    ensures FirstMoment(alpha, beta) == alpha / (alpha + beta)
    ensures SecondMoment(alpha, beta) == FirstMoment(alpha, beta) * (alpha + 1.0) / (alpha + beta + 1.0)
    ensures ThirdMoment(alpha, beta) == SecondMoment(alpha, beta) * (alpha + 2.0) / (alpha + beta + 2.0)
  {
  }

  lemma FeasibleMeans(m1: real, m2: real)
    ensures IsFeasible(m1, m2 - Square(m1)) <==> 0.0 <= m1 <= 1.0 && 0.0 <= m2 - m1 * m1 < m1 * (1.0 - m1)
  {
  }

  lemma MeanIsInside(mean: real, variance: real)
    requires 0.0 <= mean <= 1.0 && 0.0 <= variance < Spread(mean)
    ensures 0.0 < mean < 1.0
  {
    assert mean == 0.0 || mean == 1.0 ==> Spread(mean) == 0.0;
  }

  lemma ProductPositive(a: real, b: real)
    requires a > 0.0 && b > 0.0
    ensures Scaled(a, b) > 0.0
  {
  }

  lemma ScaledSplits(mean: real, scale: real)
    ensures Scaled(mean, scale) + Scaled(1.0 - mean, scale) == scale
  {
  }

  lemma ScaledGrows(a: real, b: real, c: real, d: real)
    requires 0.0 < a <= b && 0.0 < c <= d
    ensures Scaled(a, c) <= Scaled(b, d)
  {
    assert a * c <= b * c;
    assert b * c <= b * d;
  }

  lemma ShapeIsPositive(mean: real, scale: real)
    requires 0.0 < mean < 1.0 && scale > 0.0
    ensures Scaled(mean, scale) > 0.0 && Scaled(1.0 - mean, scale) > 0.0
    ensures Scaled(mean, scale) + Scaled(1.0 - mean, scale) == scale
  {
    hide Scaled;
    ProductPositive(mean, scale);
    ProductPositive(1.0 - mean, scale);
    ScaledSplits(mean, scale);
  }

  lemma DivideBack(a: real, b: real)
    requires b != 0.0
    ensures Scaled(a, b) / b == a && Scaled(a / b, b) == a
  {
  }

  /** The numerator of the second moment of the shape with this mean and scale. */
  lemma SecondMomentTimes(mean: real, variance: real, scale: real)
    requires Scaled(scale + 1.0, variance) == Spread(mean)
    ensures Scaled(mean, Scaled(mean, scale) + 1.0) == Scaled(variance + Square(mean), scale + 1.0)
  {
    assert mean * (mean * scale + 1.0) == Square(mean) * scale + mean;
    assert (variance + Square(mean)) * (scale + 1.0) == (scale + 1.0) * variance + Square(mean) * scale + Square(mean);
    assert Spread(mean) == mean - Square(mean);
  }

  lemma MomentsOfShape(mean: real, m2: real, scale: real, alpha: real, beta: real)
    requires alpha > 0.0 && beta > 0.0 && scale > 0.0 && alpha + beta == scale
    requires alpha == Scaled(mean, scale) && Scaled(mean, alpha + 1.0) == Scaled(m2, scale + 1.0)
    ensures FirstMoment(alpha, beta) == mean && SecondMoment(alpha, beta) == m2
  {
    assert FirstMoment(alpha, beta) == mean by {
      hide Scaled;
      DivideBack(mean, scale);
    }
    DivideBack(m2, scale + 1.0);
  }

  /** The shape mean * scale, (1 - mean) * scale has exactly the moments it was computed from. */
  lemma MomentsMatch(mean: real, variance: real, scale: real, alpha: real, beta: real)
    requires variance != 0.0 && scale == Scale(mean, variance) && scale > 0.0
    requires alpha == Scaled(mean, scale) > 0.0 && beta > 0.0 && alpha + beta == scale
    ensures FirstMoment(alpha, beta) == mean && SecondMoment(alpha, beta) == variance + Square(mean)
  {
    hide Spread, Square, Scaled;
    DivideBack(Spread(mean), variance);
    SecondMomentTimes(mean, variance, scale);
    MomentsOfShape(mean, variance + Square(mean), scale, alpha, beta);
  }

  // ----- the clamp

  /** The deviation limited to what the allowance leaves; `root` is the square root of that limit. */
  function Clamped(sigma: real, root: real): real
  {
    if sigma < root then sigma else root
  }

  ghost predicate IsClampRoot(root: real, mu: real)
  {
    0.0 <= root && Square(root) == MaxVariance(mu) * MAX_VARIANCE_ALLOWANCE
  }

  /** In plain words: the limit leaves 99 percent of the largest variance with this mean. */
  lemma ClampRootMeans(root: real, mu: real)
    ensures IsClampRoot(root, mu) <==>
      0.0 <= root && root * root == if 0.0 < mu < 1.0 then mu * (1.0 - mu) * 0.99 else 0.0
  {
  }

  lemma SquareAtMost(a: real, b: real)
    requires 0.0 < a <= b
    ensures 0.0 < Square(a) <= Square(b)
  {
    hide Scaled;
    ProductPositive(a, a);
    ScaledGrows(a, b, a, b);
  }

  lemma SquareNonZero(a: real)
    ensures a != 0.0 ==> Square(a) > 0.0
  {
    if a > 0.0 {
      ProductPositive(a, a);
    } else if a < 0.0 {
      ProductPositive(-a, -a);
    }
  }

  lemma LargeQuotient(bound: real, variance: real)
    requires 0.0 < variance <= 0.99 * bound
    ensures bound / variance > 1.01
  {
    DivideBack(bound, variance);
    var q := bound / variance;
    assert q <= 1.01 ==> q * variance <= 1.01 * variance;
  }

  /** With the clamp, a deviation that is not zero is feasible, well away from the bound. */
  lemma ClampMakesFeasible(mu: real, sigma: real, root: real)
    requires 0.0 <= sigma && IsClampRoot(root, mu) && Clamped(sigma, root) != 0.0
    ensures mu != 0.0 && Square(Clamped(sigma, root)) > 0.0
    ensures IsFeasible(mu, Square(Clamped(sigma, root))) && Scale(mu, Square(Clamped(sigma, root))) > 0.01
  {
    hide Square, Spread;
    SquareAtMost(Clamped(sigma, root), root);
    LargeQuotient(Spread(mu), Square(Clamped(sigma, root)));
  }

  /** Probability of staying below the threshold; `cdf` is the distribution function of the beta distribution. */
  method ComputeProbability(mu: real, sigma: real, threshold: real, tiny: real, cdf: (real, real, real) -> real)
    returns (probability: real, fit: BetaDistribution?)
    requires tiny > 0.0
    ensures mu == 0.0 || (sigma == 0.0 && mu <= threshold) ==> fit == null && probability == 1.0
    ensures mu != 0.0 && sigma == 0.0 && mu > threshold ==> fit == null && probability == 0.0
    ensures mu != 0.0 && sigma != 0.0 ==> (fit != null <==> IsFeasible(mu, Square(sigma)))
    ensures mu != 0.0 && sigma != 0.0 && fit == null ==> probability == 0.0
    ensures fit != null ==> fit.Valid() && probability == cdf(fit.alpha, fit.beta, threshold)
    ensures fit != null && Square(sigma) != 0.0 && Scale(mu, Square(sigma)) >= tiny ==>
              fit.firstMoment == mu && fit.secondMoment == Square(sigma) + Square(mu)
  {
    hide FirstMoment, SecondMoment, ThirdMoment, Spread, Square;
    SquareNonZero(sigma);
    if mu == 0.0 || (sigma == 0.0 && mu <= threshold) {
      return 1.0, null;
    }
    if sigma == 0.0 && mu > threshold {
      return 0.0, null;
    }
    var m2 := Square(sigma) + Square(mu);
    assert m2 - Square(mu) == Square(sigma);
    var dist := new BetaDistribution(1.0, 1.0);
    var ok := dist.MatchMoments(mu, m2, tiny);
    if !ok {
      return 0.0, null;
    }
    return cdf(dist.alpha, dist.beta, threshold), dist;
  }

  /**
    The load part of the risk: clamp the deviation, then fit. Whenever the fit is attempted it
    succeeds, and the fitted distribution has exactly the mean and the second moment asked for.
   */
  method FitLoad(mu: real, sigma: real, root: real, threshold: real, tiny: real, cdf: (real, real, real) -> real)
    returns (probability: real, fit: BetaDistribution?)
    requires 0.0 <= sigma && IsClampRoot(root, mu) && 0.0 < tiny <= 0.01
    ensures fit != null <==> mu != 0.0 && Clamped(sigma, root) != 0.0
    ensures fit != null ==>
              && fit.Valid() && fit.firstMoment == mu
              && fit.secondMoment == Square(Clamped(sigma, root)) + Square(mu)
              && probability == cdf(fit.alpha, fit.beta, threshold)
  {
    hide Square, Spread;
    var s := Clamped(sigma, root);
    if s != 0.0 {
      ClampMakesFeasible(mu, sigma, root);
    }
    probability, fit := ComputeProbability(mu, s, threshold, tiny, cdf);
  }
}
