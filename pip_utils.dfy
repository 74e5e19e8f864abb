/**
 * The statistics helpers of the analysis: k-fold index partitioning, the
 * coverage rate of prediction intervals, the permutation-test statistic
 * and the normalisation choice of the NRMSE score. `sqrt` is a parameter.
 */
module PipUtils {
  import opened Wrappers
  import opened Numbers

  // ------------------------------------------------------------- k-fold

  /** `indices[a:b]` for `0 <= a <= b <= len`: the run a, a+1, ..., b-1. */
  function Interval(a: nat, b: nat): (r: seq<nat>)
    requires a <= b
    ensures |r| == b - a && forall j :: 0 <= j < |r| ==> r[j] == a + j
  {
    seq(b - a, j requires 0 <= j < b - a => a + j)
  }

  /** One fold: the training indices and the test indices. */
  datatype Fold = Fold(train: seq<nat>, test: seq<nat>)

  lemma FoldsFit(n: nat, k: nat, i: nat)
    requires 0 <= i < k
    ensures (i + 1) * (n / k) <= n
  {
    assert (i + 1) * (n / k) <= k * (n / k);
    assert k * (n / k) + n % k == n;
  }

  /** Fold i of `kfold_indices`: test slice `[i*fs, (i+1)*fs)` with `fs = n // k`, train the rest. */
  function FoldOf(n: nat, k: nat, i: nat): Fold
    requires 0 <= i < k
  {
    var fs := n / k;
    FoldsFit(n, k, i);
    Fold(Interval(0, i * fs) + Interval((i + 1) * fs, n), Interval(i * fs, (i + 1) * fs))
  }

  /**
   * `kfold_indices(data, k)` for `n = len(data)`: k folds; None for k = 0
   * (division by zero), no folds for a negative k.
   */
  method KFoldIndices(n: nat, k: int) returns (folds: Option<seq<Fold>>)
    ensures folds.None? <==> k == 0
    ensures k < 0 ==> folds == Some([])
    ensures k > 0 ==> (folds.Some? && |folds.value| == k &&
      forall i :: 0 <= i < k ==> folds.value[i] == FoldOf(n, k, i))
  {
    if k == 0 {
      return None;
    }
    if k < 0 {
      return Some([]);
    }
    var foldSize := n / k;
    var result: seq<Fold> := [];
    for i := 0 to k
      invariant |result| == i
      invariant forall j :: 0 <= j < i ==> result[j] == FoldOf(n, k, j)
    {
      FoldsFit(n, k, i);
      var test := Interval(i * foldSize, (i + 1) * foldSize);
      var train := Interval(0, i * foldSize) + Interval((i + 1) * foldSize, n);
      result := result + [Fold(train, test)];
    }
    return Some(result);
  }

  /**
   * Each fold: the test slice has `n // k` indices; train is the ascending
   * complement of the test slice; together they are exactly 0..n-1.
   */
  lemma FoldPartition(n: nat, k: nat, i: nat)
    requires 0 <= i < k
    ensures var f := FoldOf(n, k, i);
      |f.test| == n / k &&
      (forall j :: 0 <= j < |f.train| - 1 ==> f.train[j] < f.train[j + 1]) &&
      (forall x :: x in f.test ==> x < n) &&
      (forall x :: x in f.train ==> x < n) &&
      (forall x: nat :: x < n ==> (x in f.train <==> x !in f.test))
  {
    var fs := n / k;
    FoldsFit(n, k, i);
    var f := FoldOf(n, k, i);
    var left, right := Interval(0, i * fs), Interval((i + 1) * fs, n);
    assert f.train == left + right;
    forall x: nat | x < n ensures x in f.train <==> x !in f.test {
      if x < i * fs {
        assert left[x] == x;
      } else if x >= (i + 1) * fs {
        assert right[x - (i + 1) * fs] == x;
      } else {
        assert f.test[x - i * fs] == x;
      }
    }
  }

  /** Different folds have disjoint test slices. */
  lemma TestSlicesDisjoint(n: nat, k: nat, i: nat, j: nat)
    requires 0 <= i < j < k
    ensures forall x :: x in FoldOf(n, k, i).test ==> x !in FoldOf(n, k, j).test
  {
    var fs := n / k;
    assert (i + 1) * fs <= j * fs;
  }

  /** The last `n % k` indices are in no test slice: they are only ever trained on. */
  lemma TailOutsideTestSlices(n: nat, k: nat, i: nat, x: nat)
    requires 0 <= i < k
    requires n - n % k <= x < n
    ensures x !in FoldOf(n, k, i).test
    ensures x in FoldOf(n, k, i).train
  {
    var fs := n / k;
    FoldsFit(n, k, i);
    var hi := (i + 1) * fs;
    assert hi <= k * fs by {
      MulLeft(i + 1, k, fs);
    }
    assert n - n % k == k * fs;
    var f := FoldOf(n, k, i);
    var right := Interval(hi, n);
    assert f.test == Interval(i * fs, hi);
    assert forall y :: y in f.test ==> y < hi;
    assert f.train == Interval(0, i * fs) + right;
    assert right[x - hi] == x;
  }

  lemma MulLeft(a: nat, b: nat, c: nat)
    requires a <= b
    ensures a * c <= b * c
  {
  }

  // ------------------------------------------------------- coverage rate

  /** How many observations lie strictly inside their interval. */
  function CountInside(y: seq<real>, yLb: seq<real>, yUb: seq<real>): (c: nat)
    requires |yLb| == |y| && |yUb| == |y|
    ensures c <= |y|
  {
    if y == [] then 0
    else
      var n := |y| - 1;
      CountInside(y[..n], yLb[..n], yUb[..n]) + (if yLb[n] < y[n] < yUb[n] then 1 else 0)
  }

  /** `coverage_rate`: the share of observations strictly inside; NaN (None) for no observations. */
  function CoverageRate(y: seq<real>, yLb: seq<real>, yUb: seq<real>): (r: Option<real>)
    requires |yLb| == |y| && |yUb| == |y|
    ensures r.None? <==> |y| == 0
    ensures r.Some? ==> 0.0 <= r.value <= 1.0
  {
    if |y| == 0 then None else Some(CountInside(y, yLb, yUb) as real / |y| as real)
  }

  /** All observations are inside exactly when the count is full, none exactly when it is zero. */
  lemma {:induction false} CountInsideExtremes(y: seq<real>, yLb: seq<real>, yUb: seq<real>)
    requires |yLb| == |y| && |yUb| == |y|
    ensures CountInside(y, yLb, yUb) == |y| <==> forall i :: 0 <= i < |y| ==> yLb[i] < y[i] < yUb[i]
    ensures CountInside(y, yLb, yUb) == 0 <==> forall i :: 0 <= i < |y| ==> !(yLb[i] < y[i] < yUb[i])
  {
    if y != [] {
      var n := |y| - 1;
      CountInsideExtremes(y[..n], yLb[..n], yUb[..n]);
    }
  }

  /** The rate is 1 exactly when every observation is strictly inside, 0 exactly when none is. */
  lemma CoverageExtremes(y: seq<real>, yLb: seq<real>, yUb: seq<real>)
    requires |yLb| == |y| && |yUb| == |y| && |y| > 0
    ensures CoverageRate(y, yLb, yUb) == Some(1.0) <==> forall i :: 0 <= i < |y| ==> yLb[i] < y[i] < yUb[i]
    ensures CoverageRate(y, yLb, yUb) == Some(0.0) <==> forall i :: 0 <= i < |y| ==> !(yLb[i] < y[i] < yUb[i])
  {
    CountInsideExtremes(y, yLb, yUb);
    var c := CountInside(y, yLb, yUb) as real;
    var m := |y| as real;
    QuotientExtremes(c, m, c / m);
  }

  /** A quotient by a positive number is 1 exactly for equal operands and 0 exactly for a zero dividend. */
  lemma QuotientExtremes(c: real, m: real, q: real)
    requires m > 0.0 && q == c / m
    ensures q == 1.0 <==> c == m
    ensures q == 0.0 <==> c == 0.0
  {
    DivMul(c, m, q);
    if c == m {
      assert (q - 1.0) * m == 0.0;
    }
  }

  // ---------------------------------------------------------- statistic

  /** `np.mean`: NaN (None) for an empty sample. */
  function SampleMean(x: seq<real>): (m: Option<real>)
    ensures m.None? <==> |x| == 0
    ensures m.Some? ==> m.value * |x| as real == Sum(x)
  {
    if |x| == 0 then None else Some(Sum(x) / |x| as real)
  }

  /** `statistic(x, y)`: the difference of the sample means. */
  function Statistic(x: seq<real>, y: seq<real>): (d: Option<real>)
    ensures d.None? <==> |x| == 0 || |y| == 0
  {
    var mx, my := SampleMean(x), SampleMean(y);
    if mx.None? || my.None? then None else Some(mx.value - my.value)
  }

  /** Swapping the samples negates the statistic. */
  lemma StatisticAntisymmetric(x: seq<real>, y: seq<real>)
    requires |x| > 0 && |y| > 0
    ensures Statistic(y, x).value == -Statistic(x, y).value
  {
  }

  /** A sum does not depend on the order of its terms. */
  lemma {:induction false} SumPermutation(s: seq<real>, t: seq<real>)
    requires multiset(s) == multiset(t)
    ensures Sum(s) == Sum(t)
    decreases |s|
  {
    if s == [] {
      assert |t| == |multiset(t)| == 0;
    } else {
      var n := |s| - 1;
      var x := s[n];
      assert x in multiset(t);
      var j :| 0 <= j < |t| && t[j] == x;
      var rest := t[..j] + t[j + 1..];
      assert t == t[..j] + [x] + t[j + 1..];
      assert s == s[..n] + [x];
      assert multiset(t) == multiset(t[..j]) + multiset{x} + multiset(t[j + 1..]);
      assert multiset(s) == multiset(s[..n]) + multiset{x};
      assert multiset(rest) == multiset(t[..j]) + multiset(t[j + 1..]);
      forall e ensures multiset(s[..n])[e] == multiset(rest)[e] {
        assert multiset(s)[e] == multiset(t)[e];
      }
      assert multiset(s[..n]) == multiset(rest);
      SumPermutation(s[..n], rest);
      SumAppend(t[..j] + [x], t[j + 1..]);
      SumAppend(t[..j], [x]);
      SumAppend(t[..j], t[j + 1..]);
      assert Sum([x]) == x by {
        assert [x][..0] == [];
      }
    }
  }

  /** Samples holding the same values in any order give a statistic of 0. */
  lemma StatisticOfRearrangement(x: seq<real>, y: seq<real>)
    requires |x| > 0 && multiset(x) == multiset(y)
    ensures Statistic(x, y) == Some(0.0)
  {
    assert |x| == |multiset(x)| == |multiset(y)| == |y|;
    SumPermutation(x, y);
  }

  // -------------------------------------------------------------- NRMSE

  lemma MulPositive(a: real, b: real, p: real)
    requires a > 0.0 && b > 0.0 && p == a * b
    ensures p > 0.0
  {
  }

  /** `d ** 2`: never negative, and zero only for a zero difference. */
  function Square(d: real): (q: real)
    ensures q >= 0.0 && (q == 0.0 <==> d == 0.0)
  {
    if d > 0.0 then MulPositive(d, d, d * d); d * d
    else if d < 0.0 then MulPositive(-d, -d, d * d); d * d
    else 0.0
  }

  /** Sum of squared errors. */
  function SquaredError(y: seq<real>, yPred: seq<real>): (e: real)
    requires |yPred| == |y|
    ensures e >= 0.0
  {
    if y == [] then 0.0
    else
      var n := |y| - 1;
      SquaredError(y[..n], yPred[..n]) + Square(y[n] - yPred[n])
  }

  /** The squared error is zero exactly for a perfect prediction. */
  lemma {:induction false} SquaredErrorZero(y: seq<real>, yPred: seq<real>)
    requires |yPred| == |y|
    ensures SquaredError(y, yPred) == 0.0 <==> y == yPred
  {
    if y != [] {
      var n := |y| - 1;
      SquaredErrorZero(y[..n], yPred[..n]);
      assert y == y[..n] + [y[n]] && yPred == yPred[..n] + [yPred[n]];
      var prev := SquaredError(y[..n], yPred[..n]);
      var d := y[n] - yPred[n];
      assert SquaredError(y, yPred) == prev + Square(d);
      if d == 0.0 {
        assert y == yPred <==> y[..n] == yPred[..n];
      }
    }
  }

  function SeqMax(s: seq<real>): (m: real)
    requires |s| > 0
    ensures forall i :: 0 <= i < |s| ==> s[i] <= m
    ensures m in s
  {
    if |s| == 1 then s[0] else Max(SeqMax(s[..|s| - 1]), s[|s| - 1])
  }

  function SeqMin(s: seq<real>): (m: real)
    requires |s| > 0
    ensures forall i :: 0 <= i < |s| ==> m <= s[i]
    ensures m in s
  {
    if |s| == 1 then s[0] else Min(SeqMin(s[..|s| - 1]), s[|s| - 1])
  }

  /** `rmse` as `nrmse` computes it: the root of the mean squared error. */
  function Rmse(y: seq<real>, yPred: seq<real>, sqrt: real -> real): real
    requires |yPred| == |y| && |y| > 0
  {
    sqrt(SquaredError(y, yPred) / |y| as real)
  }

  /** `y.max() - y.min()`. */
  function Spread(y: seq<real>): (r: real)
    requires |y| > 0
    ensures r >= 0.0
    ensures r == 0.0 <==> forall i, j :: 0 <= i < |y| && 0 <= j < |y| ==> y[i] == y[j]
  {
    SeqMax(y) - SeqMin(y)
  }

  /** `rmse / divisor`, with no finite value for a zero divisor. */
  function Normalise(rmse: real, divisor: real): (r: Option<real>)
    ensures r.None? <==> divisor == 0.0
  {
    if divisor == 0.0 then None else Some(rmse / divisor)
  }

  /** A normalised score times its divisor gives back the RMSE. */
  lemma NormaliseMeaning(rmse: real, divisor: real, score: real)
    requires Normalise(rmse, divisor) == Some(score)
    ensures score * divisor == rmse
  {
    DivMul(rmse, divisor, score);
  }

  /**
   * `nrmse`: the RMSE divided by the mean of `y` for 'mean', by its range
   * for 'range', and left as it is for any other name. A zero divisor or
   * an empty sample has no finite score (None).
   */
  function Nrmse(y: seq<real>, yPred: seq<real>, normMethod: string, sqrt: real -> real): (r: Option<real>)
    requires |yPred| == |y|
    ensures |y| == 0 ==> r.None?
    ensures |y| > 0 && normMethod == "range" ==> (r.None? <==> forall i, j :: 0 <= i < |y| && 0 <= j < |y| ==> y[i] == y[j])
    ensures |y| > 0 && normMethod == "mean" ==> (r.None? <==> Sum(y) == 0.0)
    ensures |y| > 0 && normMethod != "range" && normMethod != "mean" ==> r == Some(Rmse(y, yPred, sqrt))
  {
    if |y| == 0 then None
    else
      var rmse := Rmse(y, yPred, sqrt);
      if normMethod == "mean" then Normalise(rmse, Sum(y) / |y| as real)
      else if normMethod == "range" then Normalise(rmse, Spread(y))
      else Some(rmse)
  }

  /** A finite 'range' score times the range of `y` gives back the RMSE. */
  lemma NrmseRangeMeaning(y: seq<real>, yPred: seq<real>, sqrt: real -> real, score: real)
    requires |yPred| == |y| && Nrmse(y, yPred, "range", sqrt) == Some(score)
    ensures |y| > 0 && score * Spread(y) == Rmse(y, yPred, sqrt)
  {
    RangeIsNormalise(y, yPred, sqrt);
    var r, d := Rmse(y, yPred, sqrt), Spread(y);
    NormaliseMeaning(r, d, score);
    assert score * d == r;
  }

  lemma RangeIsNormalise(y: seq<real>, yPred: seq<real>, sqrt: real -> real)
    requires |yPred| == |y| && Nrmse(y, yPred, "range", sqrt).Some?
    ensures |y| > 0
    ensures Nrmse(y, yPred, "range", sqrt) == Normalise(Rmse(y, yPred, sqrt), Spread(y))
  {
  }

  /** A finite 'mean' score times the mean of `y` gives back the RMSE. */
  lemma NrmseMeanMeaning(y: seq<real>, yPred: seq<real>, sqrt: real -> real, score: real)
    requires |yPred| == |y| && Nrmse(y, yPred, "mean", sqrt) == Some(score)
    ensures score * (Sum(y) / |y| as real) == Rmse(y, yPred, sqrt)
  {
    NormaliseMeaning(Rmse(y, yPred, sqrt), Sum(y) / |y| as real, score);
  }

  lemma DivMul(a: real, b: real, q: real)
    requires b != 0.0 && q == a / b
    ensures q * b == a
  {
  }

  /**
   * A perfect prediction scores 0 under every normalisation that has a
   * finite score, given that the square root of 0 is 0.
   */
  lemma PerfectPredictionScoresZero(y: seq<real>, normMethod: string, sqrt: real -> real)
    requires |y| > 0 && sqrt(0.0) == 0.0
    ensures Nrmse(y, y, normMethod, sqrt).Some? ==> Nrmse(y, y, normMethod, sqrt).value == 0.0
  {
    SquaredErrorZero(y, y);
  }
}
