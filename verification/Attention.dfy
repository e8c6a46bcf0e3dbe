/** Dense attention of one query head over all keys and values of one sequence: the reference for the paged kernel. */
module Attention {
  import opened Reductions

  /**
    `exp` is any function with the properties of the exponential used here; `low` is below every score;
    without positional slopes, `slope` is zero.
   */
  datatype Query = Query(q: seq<real>, scale: real, slope: real, low: real, exp: real -> real)

  const EPSILON: real := 0.000001

  ghost predicate ExpOk(exp: real -> real) {
    exp(0.0) == 1.0 && (forall z: real :: exp(z) > 0.0) && (forall z: real | z <= 0.0 :: exp(z) <= 1.0)
  }

  ghost function Dot(q: seq<real>, k: seq<real>): real
    requires |q| == |k|
  {
    if q == [] then 0.0 else Dot(q[..|q| - 1], k[..|k| - 1]) + q[|q| - 1] * k[|k| - 1]
  }

  /** The score of token `i` of `context`; the last token has no positional penalty. */
  ghost function Score(a: Query, key: seq<real>, i: nat, context: nat): real
    requires |key| == |a.q|
  {
    Dot(a.q, key) * a.scale + a.slope * (i - context + 1) as real
  }

  ghost function Scores(a: Query, keys: seq<seq<real>>): (r: seq<real>)
    requires forall i | 0 <= i < |keys| :: |keys[i]| == |a.q|
    ensures |r| == |keys|
  {
    seq(|keys|, i requires 0 <= i < |keys| => Score(a, keys[i], i, |keys|))
  }

  /** Every score is a proper one: none is as low as the mark of a masked position. */
  ghost predicate ScoresOk(a: Query, keys: seq<seq<real>>) {
    && (forall i | 0 <= i < |keys| :: |keys[i]| == |a.q|)
    && (forall i | 0 <= i < |keys| :: a.low < Scores(a, keys)[i])
  }

  /** Exponentials of the scores, shifted by the greatest. */
  ghost function Shifted(a: Query, scores: seq<real>): (r: seq<real>)
    ensures |r| == |scores|
  {
    var m := Fold(Max(a.low), scores);
    seq(|scores|, i requires 0 <= i < |scores| => a.exp(scores[i] - m))
  }

  /** The weight of each token: a softmax whose denominator is a little larger than the sum. */
  ghost function Weights(a: Query, scores: seq<real>): (r: seq<real>)
    requires Fold(Sum, Shifted(a, scores)) + EPSILON != 0.0
    ensures |r| == |scores|
  {
    var w := Shifted(a, scores);
    seq(|w|, i requires 0 <= i < |w| => w[i] * (1.0 / (Fold(Sum, w) + EPSILON)))
  }

  /** Element `d` of the output. */
  ghost function Dense(a: Query, keys: seq<seq<real>>, column: seq<real>): real
    requires |column| == |keys| && ScoresOk(a, keys) && Fold(Sum, Shifted(a, Scores(a, keys))) + EPSILON != 0.0
  {
    Fold(Sum, Weighted(Weights(a, Scores(a, keys)), column))
  }

  ghost function Weighted(weights: seq<real>, column: seq<real>): (r: seq<real>)
    requires |weights| == |column|
    ensures |r| == |weights|
  {
    seq(|weights|, i requires 0 <= i < |weights| => weights[i] * column[i])
  }

  // ---------------------------------------------------------------- the scores

  /** The product with a unit vector is one element of the key. */
  lemma {:induction false} DotOneHot(q: seq<real>, k: seq<real>, j: nat)
    requires |q| == |k| && j < |q| && forall i | 0 <= i < |q| :: q[i] == if i == j then 1.0 else 0.0
    ensures Dot(q, k) == k[j]
  {
    var n := |q| - 1;
    if j < n {
      DotOneHot(q[..n], k[..n], j);
    } else {
      DotZero(q[..n], k[..n]);
    }
  }

  lemma {:induction false} DotZero(q: seq<real>, k: seq<real>)
    requires |q| == |k| && forall i | 0 <= i < |q| :: q[i] == 0.0
    ensures Dot(q, k) == 0.0
  {
    if q != [] {
      DotZero(q[..|q| - 1], k[..|k| - 1]);
    }
  }

  /** It is additive and homogeneous in the query, which together with the unit vectors leaves one product. */
  lemma {:induction false} DotLinear(p: seq<real>, q: seq<real>, c: real, sum: seq<real>, k: seq<real>)
    requires |p| == |q| == |sum| == |k| && forall i | 0 <= i < |p| :: sum[i] == p[i] + c * q[i]
    ensures Dot(sum, k) == Dot(p, k) + c * Dot(q, k)
  {
    if sum != [] {
      var n := |sum| - 1;
      DotLinear(p[..n], q[..n], c, sum[..n], k[..n]);
      assert (p[n] + c * q[n]) * k[n] == p[n] * k[n] + c * (q[n] * k[n]);
      assert c * (Dot(q[..n], k[..n]) + q[n] * k[n]) == c * Dot(q[..n], k[..n]) + c * (q[n] * k[n]);
    }
  }

  /** So a one-hot query at scale 1, without a slope, scores each token by one element of its key. */
  lemma ScoreOneHot(a: Query, keys: seq<seq<real>>, j: nat, i: nat)
    requires i < |keys| && j < |a.q| && forall n | 0 <= n < |keys| :: |keys[n]| == |a.q|
    requires a.scale == 1.0 && a.slope == 0.0 && forall n | 0 <= n < |a.q| :: a.q[n] == if n == j then 1.0 else 0.0
    ensures Scores(a, keys)[i] == keys[i][j]
  {
    DotOneHot(a.q, keys[i], j);
  }

  /** The scale multiplies it, and a slope takes off as many times itself as there are tokens behind the scored one. */
  lemma ScorePenalty(a: Query, plain: Query, keys: seq<seq<real>>, i: nat)
    requires i < |keys| && forall n | 0 <= n < |keys| :: |keys[n]| == |a.q|
    requires plain == a.(scale := 1.0, slope := 0.0)
    ensures Scores(a, keys)[i] == a.scale * Scores(plain, keys)[i] - a.slope * |keys[i + 1..]| as real
  {
    assert (i - |keys| + 1) as real == -(|keys[i + 1..]| as real);
  }

  // ---------------------------------------------------------------- the weights

  lemma {:induction false} SumPositive(v: seq<real>, i: nat)
    requires forall k | 0 <= k < |v| :: v[k] > 0.0
    ensures StrideFold(Sum, v, i, 1) >= 0.0
    ensures forall k | i <= k < |v| :: StrideFold(Sum, v, i, 1) >= v[k]
    decreases if i < |v| then |v| - i else 0
  {
    if i < |v| {
      SumPositive(v, i + 1);
    }
  }

  lemma {:induction false} SumScaled(v: seq<real>, f: real, scaled: seq<real>, i: nat)
    requires |scaled| == |v| && forall k | 0 <= k < |v| :: scaled[k] == v[k] * f
    ensures StrideFold(Sum, scaled, i, 1) == StrideFold(Sum, v, i, 1) * f
    decreases if i < |v| then |v| - i else 0
  {
    if i < |v| {
      SumScaled(v, f, scaled, i + 1);
    }
  }

  /** The greatest score contributes 1, so the sum of the shifted exponentials is at least 1. */
  lemma ShiftedSum(a: Query, scores: seq<real>)
    requires ExpOk(a.exp) && scores != [] && forall i | 0 <= i < |scores| :: a.low < scores[i]
    ensures Fold(Sum, Shifted(a, scores)) >= 1.0
    ensures forall i | 0 <= i < |scores| :: 0.0 < Shifted(a, scores)[i] <= 1.0
  {
    var m, w := Fold(Max(a.low), scores), Shifted(a, scores);
    MaxFrom(a.low, scores, 0);
    assert scores[0] <= m;
    var k :| 0 <= k < |scores| && scores[k] == m;
    assert w[k] == a.exp(0.0);
    SumPositive(w, 0);
  }

  /** Every weight is positive, and together they weigh less than 1 but more than 1 - EPSILON. */
  lemma WeightBound(a: Query, scores: seq<real>)
    requires ExpOk(a.exp) && scores != [] && forall i | 0 <= i < |scores| :: a.low < scores[i]
    ensures Fold(Sum, Shifted(a, scores)) + EPSILON > 0.0
    ensures forall i | 0 <= i < |scores| :: 0.0 < Weights(a, scores)[i]
    ensures 1.0 - EPSILON < Fold(Sum, Weights(a, scores)) < 1.0
  {
    ShiftedSum(a, scores);
    var w := Shifted(a, scores);
    var total := Fold(Sum, w);
    hide Shifted, Fold;
    WeightsAre(a, scores, total);
    Ratio(total);
  }

  lemma WeightsAre(a: Query, scores: seq<real>, total: real)
    requires total == Fold(Sum, Shifted(a, scores)) >= 1.0 && forall i | 0 <= i < |scores| :: 0.0 < Shifted(a, scores)[i]
    ensures forall i | 0 <= i < |scores| :: 0.0 < Weights(a, scores)[i]
    ensures Fold(Sum, Weights(a, scores)) == total * (1.0 / (total + EPSILON))
  {
    var w, inv := Shifted(a, scores), 1.0 / (total + EPSILON);
    hide Shifted;
    assert inv > 0.0;
    forall i | 0 <= i < |scores| ensures 0.0 < Weights(a, scores)[i] == w[i] * inv {
      Positive(w[i], inv);
    }
    SumScaled(w, inv, Weights(a, scores), 0);
  }

  lemma Positive(a: real, b: real)
    requires a > 0.0 && b > 0.0
    ensures a * b > 0.0
  {
  }

  lemma Ratio(total: real)
    requires total >= 1.0
    ensures 1.0 - EPSILON < total * (1.0 / (total + EPSILON)) < 1.0
  {
    var d := total + EPSILON;
    assert total * (1.0 / d) == total / d == 1.0 - EPSILON / d;
    assert EPSILON / d < EPSILON by {
      assert EPSILON / d * d == EPSILON;
    }
  }

  ghost function Times(a: real, b: real): real { a * b }

  /** So the output lies within the range of the values, scaled by the total weight. */
  lemma {:induction false} WithinRange(weights: seq<real>, column: seq<real>, lo: real, hi: real, i: nat)
    requires |weights| == |column| && (forall k | 0 <= k < |column| :: lo <= column[k] <= hi && weights[k] > 0.0)
    ensures Times(lo, StrideFold(Sum, weights, i, 1)) <= StrideFold(Sum, Weighted(weights, column), i, 1)
    ensures StrideFold(Sum, Weighted(weights, column), i, 1) <= Times(hi, StrideFold(Sum, weights, i, 1))
    decreases if i < |weights| then |weights| - i else 0
  {
    if i < |weights| {
      var terms := Weighted(weights, column);
      assert terms[i] == Times(weights[i], column[i]);
      hide Times, Weighted;
      WithinRange(weights, column, lo, hi, i + 1);
      Sandwich(weights[i], column[i], StrideFold(Sum, weights, i + 1, 1), lo, hi);
    }
  }

  lemma Sandwich(w: real, x: real, rest: real, lo: real, hi: real)
    requires w > 0.0 && lo <= x <= hi
    ensures Times(lo, rest) + Times(w, x) >= Times(lo, w + rest) && Times(hi, rest) + Times(w, x) <= Times(hi, w + rest)
  {
    assert lo * w <= w * x <= hi * w;
    assert lo * (w + rest) == lo * w + lo * rest && hi * (w + rest) == hi * w + hi * rest;
  }

  /** The output of attention is a positive combination of the values, of total weight just below 1. */
  lemma DenseIsAverage(a: Query, keys: seq<seq<real>>, column: seq<real>, lo: real, hi: real)
    requires ExpOk(a.exp) && keys != [] && |column| == |keys| && ScoresOk(a, keys)
    requires forall k | 0 <= k < |column| :: lo <= column[k] <= hi
    ensures Fold(Sum, Shifted(a, Scores(a, keys))) + EPSILON > 0.0
    ensures var t := Fold(Sum, Weights(a, Scores(a, keys)));
            1.0 - EPSILON < t < 1.0 && Times(lo, t) <= Dense(a, keys, column) <= Times(hi, t)
  {
    var scores := Scores(a, keys);
    assert forall i | 0 <= i < |keys| :: a.low < scores[i];
    hide Scores, Shifted, Weights, Weighted, ScoresOk, Times;
    WeightBound(a, scores);
    var weights := Weights(a, scores);
    assert |weights| == |column|;
    WithinRange(weights, column, lo, hi, 0);
  }

  // ---------------------------------------------------------------- which average

  /**
    The token of the greatest score weighs the inverse of the sum of the shifted exponentials and 10^-6, and another
    token that times the exponential of how far its score lies below.
   */
  lemma WeightRatio(a: Query, scores: seq<real>, top: nat, i: nat)
    requires ExpOk(a.exp) && top < |scores| && i < |scores|
    requires forall k | 0 <= k < |scores| :: a.low < scores[k] <= scores[top]
    ensures Fold(Sum, Shifted(a, scores)) + EPSILON > 0.0
    ensures forall k | 0 <= k < |scores| :: Shifted(a, scores)[k] == a.exp(scores[k] - scores[top])
    ensures Weights(a, scores)[top] * (Fold(Sum, Shifted(a, scores)) + 0.000001) == 1.0
    ensures Weights(a, scores)[i] == a.exp(scores[i] - scores[top]) * Weights(a, scores)[top]
  {
    ShiftedSum(a, scores);
    MaxIs(a.low, scores, scores[top]);
    var w := Shifted(a, scores);
    assert w[top] == a.exp(0.0) == 1.0 && w[i] == a.exp(scores[i] - scores[top]);
  }

  lemma {:induction false} SumOneHot(v: seq<real>, j: nat, x: real, i: nat)
    requires j < |v| && forall k | 0 <= k < |v| :: v[k] == if k == j then x else 0.0
    ensures StrideFold(Sum, v, i, 1) == if i <= j then x else 0.0
    decreases if i < |v| then |v| - i else 0
  {
    if i < |v| {
      SumOneHot(v, j, x, i + 1);
    }
  }

  lemma {:induction false} SumLinear(p: seq<real>, q: seq<real>, c: real, sum: seq<real>, i: nat)
    requires |p| == |q| == |sum| && forall k | 0 <= k < |p| :: sum[k] == p[k] + c * q[k]
    ensures StrideFold(Sum, sum, i, 1) == StrideFold(Sum, p, i, 1) + c * StrideFold(Sum, q, i, 1)
    decreases if i < |p| then |p| - i else 0
  {
    if i < |p| {
      SumLinear(p, q, c, sum, i + 1);
    }
  }

  /** The output is linear in the values: where only one token has the value 1, the output is that token's weight. */
  lemma DensePicks(a: Query, keys: seq<seq<real>>, column: seq<real>, j: nat)
    requires |column| == |keys| && ScoresOk(a, keys) && Fold(Sum, Shifted(a, Scores(a, keys))) + EPSILON != 0.0
    requires j < |keys| && forall i | 0 <= i < |keys| :: column[i] == if i == j then 1.0 else 0.0
    ensures Dense(a, keys, column) == Weights(a, Scores(a, keys))[j]
  {
    var weights := Weights(a, Scores(a, keys));
    hide Weights, Shifted, Scores;
    SumOneHot(Weighted(weights, column), j, weights[j], 0);
  }

  lemma DenseLinear(a: Query, keys: seq<seq<real>>, p: seq<real>, q: seq<real>, c: real, sum: seq<real>)
    requires |p| == |q| == |sum| == |keys| && ScoresOk(a, keys) && Fold(Sum, Shifted(a, Scores(a, keys))) + EPSILON != 0.0
    requires forall i | 0 <= i < |keys| :: sum[i] == p[i] + c * q[i]
    ensures Dense(a, keys, sum) == Dense(a, keys, p) + c * Dense(a, keys, q)
  {
    var weights := Weights(a, Scores(a, keys));
    hide Weights, Shifted, Scores;
    forall i | 0 <= i < |weights| ensures weights[i] * sum[i] == weights[i] * p[i] + c * (weights[i] * q[i]) {
      Distribute(weights[i], p[i], c, q[i]);
    }
    SumLinear(Weighted(weights, p), Weighted(weights, q), c, Weighted(weights, sum), 0);
  }

  lemma Distribute(w: real, p: real, c: real, q: real)
    ensures w * (p + c * q) == w * p + c * (w * q)
  {
  }
}
