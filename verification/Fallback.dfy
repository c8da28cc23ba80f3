/** The recent-average baseline that forecasts products with too little history. */
module Fallback {
  import opened ForecastTables
  import opened Features
  import opened Evaluation

  const MIN_PRODUCT_HISTORY_DAYS := 7
  const MIN_PRODUCT_POSITIVE_DAYS := 2

  function Positive(history: seq<real>): seq<real> {
    if history == [] then []
    else (if history[0] > 0.0 then [history[0]] else []) + Positive(history[1..])
  }

  /** Mean of the last seven values if positive, else mean of all positive values, else zero. */
  function FallbackPrediction(history: seq<real>): real {
    if history != [] && Average(Last(history, 7)) > 0.0 then Average(Last(history, 7))
    else if Positive(history) != [] then Average(Positive(history))
    else 0.0
  }

  predicate NeedsFallback(history: seq<real>) {
    |history| < MIN_PRODUCT_HISTORY_DAYS || |Positive(history)| < MIN_PRODUCT_POSITIVE_DAYS
  }

  predicate NonNegative(history: seq<real>) {
    forall i :: 0 <= i < |history| ==> history[i] >= 0.0
  }

  predicate AllZero(history: seq<real>) {
    forall i :: 0 <= i < |history| ==> history[i] == 0.0
  }

  lemma {:induction false} PositiveExact(history: seq<real>)
    ensures forall x :: x in Positive(history) <==> x in history && x > 0.0
  {
    if history != [] {
      PositiveExact(history[1..]);
      assert history == [history[0]] + history[1..];
    }
  }

  lemma {:induction false} SumPositive(s: seq<real>)
    requires NonNegative(s) && !AllZero(s)
    ensures Sum(s) > 0.0
  {
    if AllZero(s[1..]) {
      assert forall i :: 0 < i < |s| ==> s[i] == s[1..][i - 1];
      SumBoundedBelow(s[1..]);
    } else {
      SumPositive(s[1..]);
    }
  }

  lemma MeanPositive(s: seq<real>)
    requires s != [] && NonNegative(s)
    ensures Average(s) > 0.0 <==> !AllZero(s)
  {
    if AllZero(s) {
      AverageBounded(s, 0.0, 0.0);
    } else {
      SumPositive(s);
      QuotientPositive(Sum(s), |s| as real);
    }
  }

  lemma QuotientPositive(a: real, n: real)
    requires a > 0.0 && n > 0.0
    ensures a / n > 0.0
  {
  }

  /** One prediction lies between zero and the largest observed value; it is zero only for an all-zero history. */
  lemma FallbackBounds(history: seq<real>)
    requires history != [] && NonNegative(history)
    ensures 0.0 <= FallbackPrediction(history) <= Largest(history)
    ensures FallbackPrediction(history) == 0.0 <==> AllZero(history)
  {
    var recent, positive := Last(history, 7), Positive(history);
    assert forall i :: 0 <= i < |recent| ==> recent[i] == history[|history| - |recent| + i];
    AverageBounded(recent, 0.0, Largest(history));
    MeanPositive(recent);
    PositiveExact(history);
    if positive != [] {
      forall i | 0 <= i < |positive| ensures 0.0 < positive[i] <= Largest(history) { assert positive[i] in positive; }
      AverageBounded(positive, 0.0, Largest(history));
      MeanPositive(positive);
      assert positive[0] in positive && positive[0] in history;
    } else {
      forall i | 0 <= i < |history| ensures history[i] == 0.0 { assert history[i] !in positive; }
    }
  }

  /** n fallback predictions in a row, each appended to the history of the next. */
  function FallbackRun(history: seq<real>, n: nat): (r: seq<real>)
    ensures |r| == |history| + n
  {
    if n == 0 then history
    else
      var before := FallbackRun(history, n - 1);
      before + [FallbackPrediction(before)]
  }

  lemma LargestOfExtended(history: seq<real>, x: real)
    requires history != [] && x <= Largest(history)
    ensures Largest(history + [x]) == Largest(history)
  {
    var m, more := Largest(history), history + [x];
    var i :| 0 <= i < |history| && history[i] == m;
    assert more[i] == m;
    assert forall k :: 0 <= k < |more| ==> more[k] <= m;
  }

  /** What holds along a fallback run: bounded by the observed maximum, and zero only throughout. */
  predicate TracksHistory(run: seq<real>, history: seq<real>)
    requires history != []
  {
    && |history| <= |run|
    && NonNegative(run)
    && Largest(run) == Largest(history)
    && (AllZero(run) <==> AllZero(history))
    && forall i :: |history| <= i < |run| ==> run[i] <= Largest(history) && (run[i] == 0.0 <==> AllZero(history))
  }

  lemma TrackingContinues(run: seq<real>, history: seq<real>)
    requires history != [] && TracksHistory(run, history)
    ensures TracksHistory(run + [FallbackPrediction(run)], history)
  {
    hide FallbackPrediction;
    FallbackBounds(run);
    LargestOfExtended(run, FallbackPrediction(run));
    var more := run + [FallbackPrediction(run)];
    assert forall i :: 0 <= i < |run| ==> run[i] == more[i];
    assert more[|run|] == FallbackPrediction(run);
  }

  /**
    Over the whole horizon, no fallback forecast exceeds the largest observed quantity, and the
    forecasts are zero, each and every one, exactly when everything observed is zero.
    */
  lemma {:induction false} FallbackForecastsBounded(history: seq<real>, n: nat)
    requires history != [] && NonNegative(history)
    ensures TracksHistory(FallbackRun(history, n), history)
  {
    if n > 0 {
      FallbackForecastsBounded(history, n - 1);
      TrackingContinues(FallbackRun(history, n - 1), history);
    }
  }

  // ----- the trailing window -----------------------------------------------------------------------

  function Smallest(e: seq<real>): (m: real)
    requires e != []
    ensures m in e && forall i :: 0 <= i < |e| ==> m <= e[i]
  {
    if |e| == 1 || e[0] <= Smallest(e[1..]) then e[0] else Smallest(e[1..])
  }

  /** The window after one more value: that value, and otherwise only values of the window before. */
  lemma NextWindow(history: seq<real>, x: real)
    requires history != []
    ensures forall i :: 0 <= i < |Last(history + [x], 7)| ==>
      Last(history + [x], 7)[i] == x || Last(history + [x], 7)[i] in Last(history, 7)
    ensures x in Last(history + [x], 7)
  {
    var now, before := Last(history + [x], 7), Last(history, 7);
    assert now[|now| - 1] == x;
    forall i | 0 <= i < |now| - 1 ensures now[i] in before {
      assert now[i] == before[|before| - (|now| - 1) + i];
    }
  }

  /**
    The trailing window narrows: appending a prediction neither raises its maximum nor lowers its
    minimum, exactly when the window had a positive value or nothing positive was ever observed.
    A positive recent mean stays positive.
    */
  lemma WindowNarrows(history: seq<real>)
    requires history != [] && NonNegative(history)
    ensures var now, before := Last(history + [FallbackPrediction(history)], 7), Last(history, 7);
      && ((Largest(now) <= Largest(before) && Smallest(now) >= Smallest(before))
          <==> (Average(before) > 0.0 || AllZero(history)))
      && (Average(before) > 0.0 ==> Average(now) > 0.0)
  {
    var x := FallbackPrediction(history);
    var now, before := Last(history + [x], 7), Last(history, 7);
    NextWindow(history, x);
    FallbackBounds(history);
    AverageBounded(before, Smallest(before), Largest(before));
    assert Largest(now) in now && Smallest(now) in now;
    MeanPositive(before);
    MeanPositive(now);
    if Average(before) > 0.0 {
      assert x == Average(before);
    } else {
      assert AllZero(before) && Largest(before) == 0.0;
    }
  }

  /** After seven days without sales the all-time mean exceeds everything in the window. */
  lemma WindowCanWiden()
    ensures var history := [5.0, 0.0, 0.0, 0.0, 0.0, 0.0, 0.0, 0.0];
      && NonNegative(history)
      && Largest(Last(history, 7)) == 0.0
      && Largest(Last(history + [FallbackPrediction(history)], 7)) > 0.0
  {
    var history := [5.0, 0.0, 0.0, 0.0, 0.0, 0.0, 0.0, 0.0];
    assert forall i :: 0 <= i < |Last(history, 7)| ==> Last(history, 7)[i] == 0.0;
    FallbackBounds(history);
    assert history[0] == 5.0;
    NextWindow(history, FallbackPrediction(history));
  }

  /** The trailing window after n predictions. */
  function WindowAt(history: seq<real>, n: nat): (r: seq<real>)
    requires history != []
    ensures r != []
  {
    Last(FallbackRun(history, n), 7)
  }

  predicate Recent(history: seq<real>, n: nat)
    requires history != []
  {
    Average(WindowAt(history, n)) > 0.0
  }

  predicate Within(inner: seq<real>, outer: seq<real>)
    requires inner != [] && outer != []
  {
    Largest(inner) <= Largest(outer) && Smallest(inner) >= Smallest(outer)
  }

  /** One step of the run narrows the window as stated; afterwards its mean is positive if it ever can be. */
  lemma WindowStep(history: seq<real>, n: nat)
    requires history != [] && NonNegative(history)
    ensures Within(WindowAt(history, n + 1), WindowAt(history, n)) <==> Recent(history, n) || AllZero(history)
    ensures Recent(history, n + 1) || AllZero(history)
    ensures Recent(history, n) ==> Recent(history, n + 1)
  {
    hide FallbackPrediction, Last;
    var run := FallbackRun(history, n);
    var x := FallbackPrediction(run);
    assert FallbackRun(history, n + 1) == run + [x];
    FallbackForecastsBounded(history, n);
    FallbackForecastsBounded(history, n + 1);
    WindowNarrows(run);
    NextWindow(run, x);
    FallbackBounds(run);
    WindowIsNonNegative(history, n + 1);
    if !AllZero(history) {
      MeanPositive(WindowAt(history, n + 1));
    }
  }

  lemma WindowIsNonNegative(history: seq<real>, n: nat)
    requires history != [] && NonNegative(history)
    ensures NonNegative(WindowAt(history, n))
  {
    hide FallbackRun;
    FallbackForecastsBounded(history, n);
  }

  /** A window is all zero exactly when its mean is not positive, and then its largest value is zero. */
  lemma WindowMean(history: seq<real>, n: nat)
    requires history != [] && NonNegative(history)
    ensures Recent(history, n) <==> Largest(WindowAt(history, n)) > 0.0
  {
    hide WindowAt;
    WindowIsNonNegative(history, n);
    var window := WindowAt(history, n);
    MeanPositive(window);
    assert Largest(window) in window;
  }

  /**
    Over the whole horizon: between any two days the window stays within what it was, exactly when
    its mean was positive or nothing was ever sold; that is always so after the first prediction; and
    once the recent mean is positive it stays positive.
    */
  lemma {:induction false} WindowNarrowsOverRun(history: seq<real>, n: nat, m: nat)
    requires history != [] && NonNegative(history) && n < m
    ensures Within(WindowAt(history, m), WindowAt(history, n)) <==> Recent(history, n) || AllZero(history)
    ensures Recent(history, m) || AllZero(history)
    ensures Recent(history, n) ==> Recent(history, m)
    decreases m
  {
    hide WindowAt, Recent, AllZero, NonNegative;
    WindowStep(history, m - 1);
    if n < m - 1 {
      WindowNarrowsOverRun(history, n, m - 1);
      WindowMean(history, n);
      WindowMean(history, m);
      if !Recent(history, n) && !AllZero(history) {
        assert Largest(WindowAt(history, m)) > Largest(WindowAt(history, n));
      }
    }
  }


  lemma {:induction false} PositiveCount(history: seq<real>, x: real)
    ensures multiset(Positive(history))[x] == if x > 0.0 then multiset(history)[x] else 0
  {
    if history != [] {
      PositiveCount(history[1..], x);
      assert history == [history[0]] + history[1..];
    }
  }

  /**
    One prediction, by the sums it averages: over the last seven days or as many as there are, if they
    sold anything; over all days that did otherwise; and zero if none did.
    */
  lemma FallbackPredictionExact(history: seq<real>)
    ensures var x, recent := FallbackPrediction(history), if |history| < 7 then |history| else 7;
      if SumOfLast(history, recent) > 0.0 then x * recent as real == SumOfLast(history, recent)
      else if Positive(history) != [] then x * |Positive(history)| as real == Sum(Positive(history))
      else x == 0.0
  {
    hide Average, Sum, Positive;
    var window := Last(history, 7);
    if history != [] {
      assert window == history[|history| - |window|..];
      MeanTimesCount(window);
      SignOfMean(Average(window), |window| as real);
    } else {
      NoSum();
    }
    if Positive(history) != [] { MeanTimesCount(Positive(history)); }
  }

  lemma NoSum()
    ensures Sum([]) == 0.0
  {
  }

  lemma SignOfMean(mean: real, n: real)
    requires n > 0.0
    ensures mean * n > 0.0 <==> mean > 0.0
  {
  }
}
