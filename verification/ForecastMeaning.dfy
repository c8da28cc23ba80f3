/** What one forecast row and one metrics row say, from the records on. */
module ForecastMeaning {
  import opened Wrappers
  import opened ForecastTables
  import opened SortedLists
  import opened Features
  import opened DailyGrid
  import opened Training
  import opened Rounding
  import Evaluation
  import opened Fallback
  import opened Pipeline
  import opened PipelineProperties

  // ----- one prediction ---------------------------------------------------------------------------------

  /**
    Where a model is used, the value for the n-th day is what it says of the features of exactly that
    day, computed from the product's history and its n - 1 earlier predictions, and not below zero.
    */
  lemma ModelSeesForecastDay(f: Forecaster, p: ProductId, history: seq<real>, n: nat)
    requires n > 0 && f.model.Some? && p !in f.fallback
    ensures var run := Autoregress(f, p, history, n);
      && run[..|run| - 1] == Autoregress(f, p, history, n - 1)
      && run[|run| - 1] == Evaluation.Max(0.0, f.model.value(
           FutureFeatureRow(f.lib, ProductCode(f.ids, p), f.last + n, run[..|run| - 1])))
  {
    hide FutureFeatureRow, ProductCode, Evaluation.Max;
    AutoregressStep(f, p, history, n);
  }

  lemma FallbackSeesHistory(f: Forecaster, p: ProductId, history: seq<real>, n: nat)
    requires n > 0 && UsesFallback(f, p)
    ensures var run := Autoregress(f, p, history, n);
      && run[..|run| - 1] == Autoregress(f, p, history, n - 1)
      && run[|run| - 1] == Evaluation.Max(0.0, FallbackPrediction(run[..|run| - 1]))
  {
    hide FallbackPrediction, Evaluation.Max;
    AutoregressStep(f, p, history, n);
  }

  /** The stored demand is the nearest number of thousandths. */
  lemma DemandIsNearest(value: real)
    ensures -0.5 <= Evaluation.Max(0.0, value) * 1000.0 - ToDemand(value) as real <= 0.5
  {
  }

  /** A training row asks for one day of its product's history, and knows only the days before it. */
  lemma TrainingRowsAreHistory(daily: seq<Row>, products: seq<ProductId>, lib: Library, i: nat)
    requires i < |daily|
    ensures var row, p := LabelledFrame(daily, products, lib)[i], daily[i].product;
      var history, k := Group(daily, p), |Group(daily[..i], p)|;
      && row.product == p && row.day == daily[i].day
      && k < |history| && row.quantity == history[k]
      && row.features == FutureFeatureRow(lib, ProductCode(products, p), daily[i].day, history[..k])
  {
    hide FutureFeatureRow, ProductCode;
    RowInGroup(daily, i);
  }

  // ----- serving continues the batch ----------------------------------------------------------------------

  /** The predictions of one product as rows of the grid, on the days after its last one. */
  function ForecastRows(p: ProductId, last: Day, values: seq<real>): (r: seq<Row>)
    ensures |r| == |values| && forall i :: 0 <= i < |r| ==> r[i] == Row(p, last + 1 + i, values[i])
  {
    seq(|values|, i requires 0 <= i < |values| => Row(p, last + 1 + i, values[i]))
  }

  lemma {:induction false} GroupOfForecastRows(p: ProductId, last: Day, values: seq<real>)
    ensures Group(ForecastRows(p, last, values), p) == values
    decreases |values|
  {
    if values != [] {
      GroupOfForecastRows(p, last + 1, values[1..]);
      assert ForecastRows(p, last, values)[1..] == ForecastRows(p, last + 1, values[1..]);
    }
  }

  lemma AutoregressExtends(f: Forecaster, p: ProductId, history: seq<real>, n: nat)
    ensures |history| <= |Autoregress(f, p, history, n)| && Autoregress(f, p, history, n)[..|history|] == history
  {
    hide NextValue;
    if n > 0 { AutoregressExtends(f, p, history, n - 1); }
  }

  /**
    Append the first n predictions of a product to the grid as if they were sales. The feature columns
    that training would compute for the last of these rows are the features it was predicted from.
    */
  lemma ServingContinuesBatch(f: Forecaster, p: ProductId, daily: seq<Row>, n: nat, column: HistoryColumn)
    requires n > 0
    ensures var history := Group(daily, p);
      var run := Autoregress(f, p, history, n);
      var frame := daily + ForecastRows(p, f.last, run[|history|..]);
      var i := |frame| - 1;
      && i >= 0 && frame[i].product == p && frame[i].day == f.last + n
      && HistoryOf(frame, i) == run[..|run| - 1]
      && FillNa(Transformed(column, frame, f.lib.root)[i], 0.0) == Served(column, run[..|run| - 1], f.lib.root)
  {
    hide NextValue, Transformed, Served, FillNa;
    var history := Group(daily, p);
    var run := Autoregress(f, p, history, n);
    AutoregressExtends(f, p, history, n);
    var later := run[|history|..];
    var rows := ForecastRows(p, f.last, later);
    var frame := daily + rows;
    assert |later| == n;
    var i := |frame| - 1;
    assert frame[..i] == daily + ForecastRows(p, f.last, later[..n - 1]);
    GroupConcat(daily, ForecastRows(p, f.last, later[..n - 1]), p);
    GroupOfForecastRows(p, f.last, later[..n - 1]);
    assert history + later[..n - 1] == run[..|run| - 1];
    BatchEqualsServing(column, frame, i, f.lib.root);
  }

  /** The served row holds these columns. */
  lemma ServedRowHoldsColumns(lib: Library, code: int, day: Day, history: seq<real>)
    ensures var row := FutureFeatureRow(lib, code, day, history);
      && row.lag1 == Served(Lag1, history, lib.root)
      && row.lag7 == Served(Lag7, history, lib.root)
      && row.rollingMean7 == Served(RollingMean7, history, lib.root)
      && row.rollingMean14 == Served(RollingMean14, history, lib.root)
      && row.rollingStd7 == Served(RollingStd7, history, lib.root)
  {
  }

  // ----- one row of the output ----------------------------------------------------------------------------

  /** Too few rows to train on at all, or too little history of this product. */
  predicate SkipsModel(daily: seq<Row>, p: ProductId) {
    |daily| < 10 || |Group(daily, p)| < 7 || |Positive(Group(daily, p))| < 2
  }

  function Skipping(daily: seq<Row>, products: seq<ProductId>): set<ProductId> {
    set p | p in products && SkipsModel(daily, p)
  }

  lemma SkipsModelExactly(
    products: seq<ProductId>, records: seq<Record>, today: Day, lib: Library, fit: Fitting, p: ProductId)
    requires Distinct(products) && products != [] && p in products
    ensures var plan := PlanOf(products, records, today, lib, fit);
      && (UsesFallback(plan.forecaster, p) <==> SkipsModel(plan.daily, p))
      && (plan.forecaster.model.Some? ==>
            plan.forecaster.model.value == fit(LabelledFrame(plan.daily, products, lib)))
      && plan.forecaster.lib == lib && plan.forecaster.ids == products
  {
    hide AggregateDailySales, CleanSales, TrainWithValidation, LabelledFrame, Positive, Group;
    var frame := LabelledFrame(AggregateDailySales(products, CleanSales(records), today), products, lib);
    SplitByDays(frame, fit);
    ValidationIsHonest(frame, fit);
  }

  /**
    Every output row, from the records on: which products skip the model; what the model was fitted on
    and which features it was given; and the demand that is stored.
    */
  lemma ForecastRowExact(
    products: seq<ProductId>, records: seq<Record>, horizon: nat, today: Day, lib: Library, fit: Fitting, r: Prediction)
    requires Distinct(products) && products != []
    requires r in OutputOf(PlanOf(products, records, today, lib, fit), products, horizon).predictions
    ensures var plan := PlanOf(products, records, today, lib, fit);
      var f, history, n := plan.forecaster, Group(plan.daily, r.product), r.day - LastGridDay(plan.daily);
      && r.product in products && 0 < n <= horizon
      && var run := Autoregress(f, r.product, history, n);
      var before, value := Autoregress(f, r.product, history, n - 1), run[|run| - 1];
      && -0.5 <= Evaluation.Max(0.0, value) * 1000.0 - r.demand as real <= 0.5
      && if SkipsModel(plan.daily, r.product) then
           r.model == RecentAverage && value == Evaluation.Max(0.0, FallbackPrediction(before))
         else
           && r.model == RandomForest
           && value == Evaluation.Max(0.0, fit(LabelledFrame(plan.daily, products, lib))(
                FutureFeatureRow(lib, ProductCode(products, r.product), r.day, before)))
  {
    hide AggregateDailySales, CleanSales, TrainWithValidation, LabelledFrame, Autoregress, NextValue, ToDemand;
    hide FutureFeatureRow, ProductCode, FallbackPrediction, SkipsModel, FallbackIds, Evaluation.Max;
    var plan := PlanOf(products, records, today, lib, fit);
    var f, history := plan.forecaster, Group(plan.daily, r.product);
    RowIsIsolated(f, products, Histories(plan, products), horizon, r);
    var n := r.day - f.last;
    SkipsModelExactly(products, records, today, lib, fit, r.product);
    var run := Autoregress(f, r.product, history, n);
    DemandIsNearest(run[|run| - 1]);
    if UsesFallback(f, r.product) {
      FallbackSeesHistory(f, r.product, history, n);
    } else {
      ModelSeesForecastDay(f, r.product, history, n);
    }
  }

  // ----- the metrics row ------------------------------------------------------------------------------------

  /** What the metrics row reports: the parts of the split, the products, the fallbacks, and the scores. */
  lemma ReportExact(
    products: seq<ProductId>, records: seq<Record>, horizon: nat, today: Day, lib: Library, fit: Fitting)
    requires Distinct(products) && products != []
    ensures var plan := PlanOf(products, records, today, lib, fit);
      var frame, m := LabelledFrame(plan.daily, products, lib), OutputOf(plan, products, horizon).metrics;
      var t := TrainWithValidation(frame, fit);
      && m.totalProducts == |products|
      && m.trainingRows == |t.train| && m.validationRows == |t.validation|
      && m.fallbackProducts == |Skipping(plan.daily, products)|
      && (forall i :: 0 <= i < |t.validation| ==>
            && Quantities(t.validation)[i] == t.validation[i].row.quantity
            && Clipped(t.validation)[i] == if t.validation[i].predicted < 0.0 then 0.0 else t.validation[i].predicted)
      && (t.validation == [] ==> m.mae == m.rmse == m.mape == None && m.trainingRows == |plan.daily|)
      && (t.validation != [] ==>
            && Evaluation.NearestStored(m.mae, Evaluation.Mae(Quantities(t.validation), Clipped(t.validation)))
            && Evaluation.NearestStored(
                 m.rmse, lib.root(Evaluation.Mse(Quantities(t.validation), Clipped(t.validation))))
            && Evaluation.NearestStored(m.mape, Evaluation.Mape(Quantities(t.validation), Clipped(t.validation))))
  {
    hide AggregateDailySales, CleanSales, TrainWithValidation, LabelledFrame, Positive, Group;
    hide Evaluation.Mae, Evaluation.Mse, Evaluation.Mape;
    var plan := PlanOf(products, records, today, lib, fit);
    var frame := LabelledFrame(plan.daily, products, lib);
    var t := TrainWithValidation(frame, fit);
    SplitByDays(frame, fit);
    if t.validation != [] {
      Evaluation.StoredScoresExact(Quantities(t.validation), Clipped(t.validation), lib.root);
    }
    FallbackCount(products, records, today, lib, fit);
  }

  lemma FallbackCount(products: seq<ProductId>, records: seq<Record>, today: Day, lib: Library, fit: Fitting)
    requires Distinct(products) && products != []
    ensures var plan := PlanOf(products, records, today, lib, fit);
      (if plan.trained.model.Some? then |plan.forecaster.fallback| else |products|)
      == |Skipping(plan.daily, products)|
  {
    hide AggregateDailySales, CleanSales, TrainWithValidation, LabelledFrame, Skipping, FallbackIds;
    var plan := PlanOf(products, records, today, lib, fit);
    SplitByDays(LabelledFrame(plan.daily, products, lib), fit);
    SkippingIs(plan.daily, products);
  }

  lemma SkippingIs(daily: seq<Row>, products: seq<ProductId>)
    requires Distinct(products)
    ensures if |daily| < 10 then |Skipping(daily, products)| == |products|
            else Skipping(daily, products) == FallbackIds(daily, products)
  {
    hide Positive, Group;
    if |daily| < 10 {
      assert Skipping(daily, products) == Members(products);
      CountOfMembers(products);
    }
  }

  function Members(products: seq<ProductId>): set<ProductId> {
    set p | p in products
  }

  lemma {:induction false} CountOfMembers(products: seq<ProductId>)
    requires Distinct(products)
    ensures |Members(products)| == |products|
  {
    if products != [] {
      var first, rest := products[0], products[1..];
      CountOfMembers(rest);
      FirstIsNew(products);
      assert Members(products) == {first} + Members(rest) by { assert products == [first] + rest; }
    }
  }

  lemma FirstIsNew(products: seq<ProductId>)
    requires Distinct(products) && products != []
    ensures products[0] !in Members(products[1..])
  {
  }
}
