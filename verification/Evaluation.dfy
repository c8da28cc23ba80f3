/** Validation metrics: mean absolute error, root mean square error, mean absolute percentage error. */
module Evaluation {
  import opened Wrappers
  import opened Features
  import opened Rounding

  /** Values count ten-thousandths. */
  datatype Scores = Scores(mae: Option<int>, rmse: Option<int>, mape: Option<int>)

  function Abs(x: real): real {
    if x < 0.0 then -x else x
  }

  function Max(x: real, y: real): real {
    if x >= y then x else y
  }

  function Errors(actual: seq<real>, predicted: seq<real>): (e: seq<real>)
    requires |actual| == |predicted|
    ensures |e| == |actual| && forall i :: 0 <= i < |e| ==> e[i] == Abs(actual[i] - predicted[i])
  {
    seq(|actual|, i requires 0 <= i < |actual| => Abs(actual[i] - predicted[i]))
  }

  function Squares(e: seq<real>): (q: seq<real>)
    ensures |q| == |e| && forall i :: 0 <= i < |q| ==> q[i] == e[i] * e[i]
  {
    seq(|e|, i requires 0 <= i < |e| => e[i] * e[i])
  }

  /** Each error over the actual value, or over one where the actual value is smaller. */
  function Ratios(e: seq<real>, actual: seq<real>): (q: seq<real>)
    requires |e| == |actual|
    ensures |q| == |e| && forall i :: 0 <= i < |q| ==> q[i] == e[i] / Max(Abs(actual[i]), 1.0)
  {
    seq(|e|, i requires 0 <= i < |e| => e[i] / Max(Abs(actual[i]), 1.0))
  }

  function Mae(actual: seq<real>, predicted: seq<real>): real
    requires |actual| == |predicted| > 0
  {
    Average(Errors(actual, predicted))
  }

  function Mse(actual: seq<real>, predicted: seq<real>): real
    requires |actual| == |predicted| > 0
  {
    Average(Squares(Errors(actual, predicted)))
  }

  function Mape(actual: seq<real>, predicted: seq<real>): real
    requires |actual| == |predicted| > 0
  {
    Average(Ratios(Errors(actual, predicted), actual)) * 100.0
  }

  function Quantized(x: real): int {
    RoundHalfEven(x * 10000.0)
  }

  /** `root` stands for the square root; None for every score when there is nothing to compare. */
  function CalculateMetrics(actual: seq<real>, predicted: seq<real>, root: real -> real): Scores
    requires |actual| == |predicted| || actual == [] || predicted == []
  {
    if actual == [] || predicted == [] then Scores(None, None, None)
    else Scores(
      Some(Quantized(Mae(actual, predicted))),
      Some(Quantized(root(Mse(actual, predicted)))),
      Some(Quantized(Mape(actual, predicted))))
  }

  predicate IsRootOf(r: real, x: real) {
    r >= 0.0 && r * r == x
  }

  function Largest(e: seq<real>): (m: real)
    requires e != []
    ensures m in e && forall i :: 0 <= i < |e| ==> e[i] <= m
  {
    if |e| == 1 then e[0] else Max(e[0], Largest(e[1..]))
  }

  // ----- sums ---------------------------------------------------------------------------------

  lemma {:induction false} SumBounded(s: seq<real>, low: real, high: real)
    requires forall i :: 0 <= i < |s| ==> low <= s[i] <= high
    ensures low * (|s| as real) <= Sum(s) <= high * (|s| as real)
  {
    if s != [] {
      SumBounded(s[1..], low, high);
      OneMore(low, |s[1..]| as real);
      OneMore(high, |s[1..]| as real);
    }
  }

  lemma OneMore(x: real, n: real)
    ensures x * (n + 1.0) == x * n + x
  {
  }

  lemma {:induction false} SumOrdered(a: seq<real>, b: seq<real>)
    requires |a| == |b| && forall i :: 0 <= i < |a| ==> a[i] <= b[i]
    ensures Sum(a) <= Sum(b)
  {
    if a != [] { SumOrdered(a[1..], b[1..]); }
  }

  lemma CrossStep(x: real, h: real, t: real, q: real, n: real)
    requires 2.0 * x * t <= q + n * x * x
    ensures 2.0 * x * (h + t) <= (h * h + q) + (n + 1.0) * x * x
  {
    assert (h - x) * (h - x) >= 0.0;
    assert (h - x) * (h - x) == h * h - 2.0 * x * h + x * x;
    assert 2.0 * x * (h + t) == 2.0 * x * h + 2.0 * x * t;
    assert (n + 1.0) * x * x == n * x * x + x * x;
  }

  /** Against one more error x: 2x(e1 + ... + en) <= (e1^2 + ... + en^2) + n x^2, summand by summand. */
  lemma {:induction false} CrossTerms(e: seq<real>, x: real)
    ensures 2.0 * x * Sum(e) <= Sum(Squares(e)) + (|e| as real) * x * x
  {
    if e != [] {
      CrossTerms(e[1..], x);
      SquaresTail(e);
      CrossStep(x, e[0], Sum(e[1..]), Sum(Squares(e[1..])), |e[1..]| as real);
    }
  }

  lemma SquareStep(h: real, t: real, q: real, n: real)
    requires t * t <= n * q && 2.0 * h * t <= q + n * h * h
    ensures (h + t) * (h + t) <= (n + 1.0) * (h * h + q)
  {
    assert (h + t) * (h + t) == h * h + 2.0 * h * t + t * t;
    assert (n + 1.0) * (h * h + q) == n * h * h + n * q + h * h + q;
  }

  /** The square of the sum of n numbers is at most n times the sum of their squares. */
  lemma {:induction false} SumSquared(e: seq<real>)
    ensures Sum(e) * Sum(e) <= (|e| as real) * Sum(Squares(e))
  {
    if e != [] {
      SumSquared(e[1..]);
      CrossTerms(e[1..], e[0]);
      SquaresTail(e);
      SquareStep(e[0], Sum(e[1..]), Sum(Squares(e[1..])), |e[1..]| as real);
    }
  }

  lemma Scaled(x: real, y: real, n: real)
    requires x < y && n > 0.0
    ensures x * n < y * n
  {
  }

  lemma RootOrder(x: real, y: real)
    requires y >= 0.0 && x * x <= y * y
    ensures x <= y
  {
    var z, w := x - y, x + y;
    assert z * w == x * x - y * y;
    SignOfProduct(z, w);
  }

  lemma SignOfProduct(z: real, w: real)
    requires z * w <= 0.0
    ensures z <= 0.0 || w <= 0.0
  {
  }

  lemma SquaresTail(e: seq<real>)
    requires e != []
    ensures Squares(e)[1..] == Squares(e[1..])
  {
    forall i | 0 <= i < |e| - 1 ensures Squares(e)[1..][i] == Squares(e[1..])[i] {
      assert e[1..][i] == e[i + 1];
    }
  }

  lemma DivideBounds(total: real, n: real, low: real, high: real)
    requires n > 0.0 && low * n <= total <= high * n
    ensures low <= total / n <= high
  {
    var q := total / n;
    assert q * n == total;
    if q < low { Scaled(q, low, n); }
    if q > high { Scaled(high, q, n); }
  }

  lemma AverageBounded(s: seq<real>, low: real, high: real)
    requires s != [] && forall i :: 0 <= i < |s| ==> low <= s[i] <= high
    ensures low <= Average(s) <= high
  {
    SumBounded(s, low, high);
    DivideBounds(Sum(s), |s| as real, low, high);
  }

  // ----- MAE, RMSE and the largest error ----------------------------------------------------------

  lemma MaeBelowRmse(e: seq<real>, rmse: real)
    requires e != [] && IsRootOf(rmse, Average(Squares(e)))
    ensures Average(e) <= rmse
  {
    SumSquared(e);
    MeanSquare(Sum(e), Sum(Squares(e)), |e| as real);
    RootOrder(Average(e), rmse);
  }

  lemma RmseBelowLargest(e: seq<real>, rmse: real, largest: real)
    requires e != [] && IsRootOf(rmse, Average(Squares(e)))
    requires forall i :: 0 <= i < |e| ==> 0.0 <= e[i] <= largest
    ensures rmse <= largest
  {
    assert 0.0 <= e[0] <= largest;
    forall i | 0 <= i < |e| ensures 0.0 <= Squares(e)[i] <= largest * largest {
      SquareOrder(e[i], largest);
    }
    AverageBounded(Squares(e), 0.0, largest * largest);
    RootOrder(rmse, largest);
  }

  /** MAE <= RMSE <= the largest absolute error, for all equally long non-empty vectors. */
  lemma MaeRmseMax(actual: seq<real>, predicted: seq<real>, rmse: real, largest: real)
    requires |actual| == |predicted| > 0
    requires IsRootOf(rmse, Mse(actual, predicted))
    requires forall i :: 0 <= i < |actual| ==> Abs(actual[i] - predicted[i]) <= largest
    ensures 0.0 <= Mae(actual, predicted) <= rmse <= largest
  {
    var e := Errors(actual, predicted);
    AverageBounded(e, 0.0, largest);
    MaeBelowRmse(e, rmse);
    RmseBelowLargest(e, rmse, largest);
  }

  lemma SquareOrder(x: real, y: real)
    requires 0.0 <= x <= y
    ensures 0.0 <= x * x <= y * y
  {
    assert x * x <= x * y <= y * y;
  }

  lemma MeanSquare(s: real, q: real, n: real)
    requires n > 0.0 && s * s <= n * q
    ensures (s / n) * (s / n) <= q / n
  {
    var m := s / n;
    assert m * n == s;
    assert (m * m * n) * n == s * s;
    if m * m * n > q { Scaled(q, m * m * n, n); }
    DivideBounds(q, n, m * m, q / n);
  }

  /** 0 <= MAPE <= 100 * MAE, because every denominator is at least one. */
  lemma MapeBounded(actual: seq<real>, predicted: seq<real>)
    requires |actual| == |predicted| > 0
    ensures 0.0 <= Mape(actual, predicted) <= 100.0 * Mae(actual, predicted)
  {
    var e := Errors(actual, predicted);
    var r := Ratios(e, actual);
    forall i | 0 <= i < |r| ensures 0.0 <= r[i] <= e[i] {
      RatioBounded(e[i], Max(Abs(actual[i]), 1.0));
    }
    SumOrdered(r, e);
    SumOrdered(seq(|r|, i => 0.0), r);
    SumBounded(seq(|r|, i => 0.0), 0.0, 0.0);
    DivideOrder(Sum(r), Sum(e), |e| as real);
  }

  lemma RatioBounded(e: real, d: real)
    requires e >= 0.0 && d >= 1.0
    ensures 0.0 <= e / d <= e
  {
    assert e * 1.0 <= e * d;
    DivideBounds(e, d, 0.0, e);
  }

  lemma DivideOrder(a: real, b: real, n: real)
    requires n > 0.0 && 0.0 <= a <= b
    ensures 0.0 <= a / n <= b / n
  {
    assert (b / n) * n == b;
    DivideBounds(a, n, 0.0, b / n);
  }

  /** What is stored: scores are all present or all missing, and MAE <= RMSE survives rounding. */
  lemma StoredScoresOrdered(actual: seq<real>, predicted: seq<real>, root: real -> real)
    requires |actual| == |predicted|
    requires actual != [] ==> IsRootOf(root(Mse(actual, predicted)), Mse(actual, predicted))
    ensures var scores := CalculateMetrics(actual, predicted, root);
      if actual == [] then scores == Scores(None, None, None)
      else
        && scores.mae.Some? && scores.rmse.Some? && scores.mape.Some?
        && 0 <= scores.mae.value <= scores.rmse.value
        && 0 <= scores.mape.value
  {
    if actual != [] {
      var mae, rmse := Mae(actual, predicted), root(Mse(actual, predicted));
      var e := Errors(actual, predicted);
      MaeRmseMax(actual, predicted, rmse, Largest(e));
      MapeBounded(actual, predicted);
      RoundMonotone(0.0, mae * 10000.0);
      RoundMonotone(mae * 10000.0, rmse * 10000.0);
      RoundMonotone(0.0, Mape(actual, predicted) * 10000.0);
      RoundExact(0);
    }
  }

  /** Replacing negative predictions by zero never increases an error, as sales are never negative. */
  lemma ClippingNeverHurts(actual: seq<real>, predicted: seq<real>, clipped: seq<real>)
    requires |actual| == |predicted| == |clipped| > 0
    requires forall i :: 0 <= i < |actual| ==> actual[i] >= 0.0 && clipped[i] == Max(0.0, predicted[i])
    ensures Mae(actual, clipped) <= Mae(actual, predicted)
    ensures Mse(actual, clipped) <= Mse(actual, predicted)
  {
    var e, f := Errors(actual, clipped), Errors(actual, predicted);
    forall i | 0 <= i < |e| ensures 0.0 <= e[i] <= f[i] && 0.0 <= Squares(e)[i] <= Squares(f)[i] {
      SquareOrder(e[i], f[i]);
    }
    SumOrdered(e, f);
    SumOrdered(Squares(e), Squares(f));
    SumBoundedBelow(e);
    SumBoundedBelow(Squares(e));
    DivideOrder(Sum(e), Sum(f), |e| as real);
    DivideOrder(Sum(Squares(e)), Sum(Squares(f)), |e| as real);
  }

  lemma {:induction false} SumBoundedBelow(s: seq<real>)
    requires forall i :: 0 <= i < |s| ==> s[i] >= 0.0
    ensures Sum(s) >= 0.0
  {
    if s != [] { SumBoundedBelow(s[1..]); }
  }


  // ----- what the scores are ------------------------------------------------------------------------

  function AbsoluteErrors(actual: seq<real>, predicted: seq<real>): real
    requires |actual| == |predicted|
  {
    if actual == [] then 0.0 else Abs(actual[0] - predicted[0]) + AbsoluteErrors(actual[1..], predicted[1..])
  }

  function SquaredErrors(actual: seq<real>, predicted: seq<real>): real
    requires |actual| == |predicted|
  {
    if actual == [] then 0.0
    else (actual[0] - predicted[0]) * (actual[0] - predicted[0]) + SquaredErrors(actual[1..], predicted[1..])
  }

  function RelativeErrors(actual: seq<real>, predicted: seq<real>): real
    requires |actual| == |predicted|
  {
    if actual == [] then 0.0
    else Abs(actual[0] - predicted[0]) / Max(Abs(actual[0]), 1.0) + RelativeErrors(actual[1..], predicted[1..])
  }

  lemma {:induction false} SumOfErrors(actual: seq<real>, predicted: seq<real>)
    requires |actual| == |predicted|
    ensures Sum(Errors(actual, predicted)) == AbsoluteErrors(actual, predicted)
  {
    if actual != [] {
      SumOfErrors(actual[1..], predicted[1..]);
      assert Errors(actual, predicted)[1..] == Errors(actual[1..], predicted[1..]);
    }
  }

  lemma {:induction false} SumOfSquares(actual: seq<real>, predicted: seq<real>)
    requires |actual| == |predicted|
    ensures Sum(Squares(Errors(actual, predicted))) == SquaredErrors(actual, predicted)
  {
    if actual != [] {
      SumOfSquares(actual[1..], predicted[1..]);
      SquareOfAbs(actual[0] - predicted[0]);
      var q := Squares(Errors(actual, predicted));
      assert q[1..] == Squares(Errors(actual[1..], predicted[1..])) by {
        assert Errors(actual, predicted)[1..] == Errors(actual[1..], predicted[1..]);
        SquaresTail(Errors(actual, predicted));
      }
    }
  }

  lemma {:induction false} SumOfRatios(actual: seq<real>, predicted: seq<real>)
    requires |actual| == |predicted|
    ensures Sum(Ratios(Errors(actual, predicted), actual)) == RelativeErrors(actual, predicted)
  {
    if actual != [] {
      SumOfRatios(actual[1..], predicted[1..]);
      RatiosTail(Errors(actual, predicted), actual);
      assert Errors(actual, predicted)[1..] == Errors(actual[1..], predicted[1..]);
    }
  }

  lemma RatiosTail(e: seq<real>, actual: seq<real>)
    requires |e| == |actual| > 0
    ensures Ratios(e, actual)[1..] == Ratios(e[1..], actual[1..])
  {
  }

  lemma SquareOfAbs(x: real)
    ensures Abs(x) * Abs(x) == x * x
  {
  }

  /** n times each score is its sum of errors: absolute, squared, and relative in percent. */
  lemma ScoresAreMeans(actual: seq<real>, predicted: seq<real>)
    requires |actual| == |predicted| > 0
    ensures Mae(actual, predicted) * |actual| as real == AbsoluteErrors(actual, predicted)
    ensures Mse(actual, predicted) * |actual| as real == SquaredErrors(actual, predicted)
    ensures Mape(actual, predicted) * |actual| as real == 100.0 * RelativeErrors(actual, predicted)
  {
    hide Average, Errors, Squares, Ratios, Sum, AbsoluteErrors, SquaredErrors, RelativeErrors;
    var e := Errors(actual, predicted);
    SumOfErrors(actual, predicted);
    SumOfSquares(actual, predicted);
    SumOfRatios(actual, predicted);
    MeanTimesCount(e);
    MeanTimesCount(Squares(e));
    MeanTimesCount(Ratios(e, actual));
    Percent(Average(Ratios(e, actual)), |actual| as real, RelativeErrors(actual, predicted));
  }

  lemma Percent(x: real, n: real, total: real)
    requires x * n == total
    ensures (x * 100.0) * n == 100.0 * total
  {
  }

  /** A stored score is the nearest multiple of one ten-thousandth. */
  predicate NearestStored(stored: Option<int>, score: real) {
    stored.Some? && -0.5 <= stored.value as real - score * 10000.0 <= 0.5
  }

  /** The three stored scores are the mean absolute error, the root of the mean square, and the mean percentage. */
  lemma StoredScoresExact(actual: seq<real>, predicted: seq<real>, root: real -> real)
    requires |actual| == |predicted| > 0
    ensures var scores := CalculateMetrics(actual, predicted, root);
      && NearestStored(scores.mae, Mae(actual, predicted))
      && NearestStored(scores.rmse, root(Mse(actual, predicted)))
      && NearestStored(scores.mape, Mape(actual, predicted))
  {
  }

  /** When every prediction is off by the same amount, that amount is the MAE and the RMSE. */
  lemma EqualErrors(actual: seq<real>, predicted: seq<real>, e: real, rmse: real)
    requires |actual| == |predicted| > 0 && IsRootOf(rmse, Mse(actual, predicted))
    requires forall i :: 0 <= i < |actual| ==> Abs(actual[i] - predicted[i]) == e
    ensures Mae(actual, predicted) == e == rmse
  {
    AverageBounded(Errors(actual, predicted), e, e);
    MaeRmseMax(actual, predicted, rmse, e);
  }
}
