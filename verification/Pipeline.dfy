/** The forecasting pipeline: grid, features, training, and the autoregressive prediction loop. */
module Pipeline {
  import opened Wrappers
  import opened ForecastTables
  import opened Features
  import opened DailyGrid
  import opened Training
  import opened Rounding
  import Evaluation
  import opened Fallback

  /** Everything the prediction loop consults and never changes. */
  datatype Forecaster = Forecaster(
    lib: Library,
    ids: seq<ProductId>,
    model: Option<Model>,
    fallback: set<ProductId>,
    last: Day)

  predicate UsesFallback(f: Forecaster, p: ProductId) {
    f.model.None? || p in f.fallback
  }

  function PredictWith(model: Option<Model>, lib: Library, code: int, day: Day, history: seq<real>): real {
    match model
    case None => FallbackPrediction(history)
    case Some(predict) => predict(FutureFeatureRow(lib, code, day, history))
  }

  function RawValue(f: Forecaster, p: ProductId, ahead: nat, history: seq<real>): real {
    PredictWith(if UsesFallback(f, p) then None else f.model, f.lib, ProductCode(f.ids, p), f.last + ahead, history)
  }

  /** The prediction for day `last + ahead`, from the product's own history, not below zero. */
  function NextValue(f: Forecaster, p: ProductId, ahead: nat, history: seq<real>): real {
    Evaluation.Max(0.0, RawValue(f, p, ahead, history))
  }

  /** One product on its own: each prediction joins the history of the next. */
  function Autoregress(f: Forecaster, p: ProductId, history: seq<real>, n: nat): (r: seq<real>)
    ensures |r| == |history| + n
  {
    if n == 0 then history
    else
      var before := Autoregress(f, p, history, n - 1);
      before + [NextValue(f, p, n, before)]
  }

  /** `_to_demand_decimal`: thousandths. */
  function ToDemand(value: real): nat {
    RoundMonotone(0.0, Evaluation.Max(0.0, value) * 1000.0);
    RoundExact(0);
    RoundHalfEven(Evaluation.Max(0.0, value) * 1000.0)
  }

  function ForecastOf(f: Forecaster, p: ProductId, history: seq<real>, ahead: nat): Prediction
    requires ahead > 0
  {
    var run := Autoregress(f, p, history, ahead);
    Prediction(p, f.last + ahead, ToDemand(run[|run| - 1]), if UsesFallback(f, p) then RecentAverage else RandomForest)
  }

  /** All products on one day, each forecast in isolation. */
  function DayForecasts(f: Forecaster, products: seq<ProductId>, histories: map<ProductId, seq<real>>, ahead: nat)
    : (r: seq<Prediction>)
    requires ahead > 0 && forall p :: p in products ==> p in histories
    ensures |r| == |products|
    ensures forall i :: 0 <= i < |r| ==> r[i] == ForecastOf(f, products[i], histories[products[i]], ahead)
  {
    seq(|products|, i requires 0 <= i < |products| => ForecastOf(f, products[i], histories[products[i]], ahead))
  }

  function AllForecasts(f: Forecaster, products: seq<ProductId>, histories: map<ProductId, seq<real>>, horizon: nat)
    : seq<Prediction>
    requires forall p :: p in products ==> p in histories
  {
    if horizon == 0 then []
    else AllForecasts(f, products, histories, horizon - 1) + DayForecasts(f, products, histories, horizon)
  }

  /** One product's turn on one day: predict, extend its history, record the demand. */
  method PredictOne(f: Forecaster, p: ProductId, ahead: nat, history: seq<real>)
    returns (longer: seq<real>, prediction: Prediction)
    requires ahead > 0
    ensures longer == history + [NextValue(f, p, ahead, history)]
    ensures prediction == Prediction(
      p, f.last + ahead, ToDemand(longer[|longer| - 1]), if UsesFallback(f, p) then RecentAverage else RandomForest)
  {
    var useFallback := f.model.None? || p in f.fallback;
    var predicted;
    var model;
    if useFallback {
      predicted := FallbackPrediction(history);
      model := RecentAverage;
    } else {
      var row := FutureFeatureRow(f.lib, ProductCode(f.ids, p), f.last + ahead, history);
      predicted := f.model.value(row);
      model := RandomForest;
    }
    predicted := Evaluation.Max(0.0, predicted);
    longer := history + [predicted];
    prediction := Prediction(p, f.last + ahead, ToDemand(predicted), model);
  }

  /** The inner loop: every product's turn on one day, each extending only its own history. */
  method PredictDay(f: Forecaster, products: seq<ProductId>, start: map<ProductId, seq<real>>, day: nat)
    returns (histories: map<ProductId, seq<real>>, predictions: seq<Prediction>)
    requires day > 0 && Distinct(products) && forall p :: p in products ==> p in start
    ensures histories.Keys == start.Keys && |predictions| == |products|
    ensures forall i :: 0 <= i < |products| ==>
      histories[products[i]] == start[products[i]] + [NextValue(f, products[i], day, start[products[i]])]
    ensures forall i :: 0 <= i < |products| ==> predictions[i] == Prediction(
      products[i], f.last + day, ToDemand(NextValue(f, products[i], day, start[products[i]])),
      if UsesFallback(f, products[i]) then RecentAverage else RandomForest)
  {
    hide NextValue, ToDemand, UsesFallback;
    histories, predictions := start, [];
    for i := 0 to |products|
      invariant histories.Keys == start.Keys && |predictions| == i
      invariant forall k :: 0 <= k < i ==>
        histories[products[k]] == start[products[k]] + [NextValue(f, products[k], day, start[products[k]])]
      invariant forall k :: i <= k < |products| ==> histories[products[k]] == start[products[k]]
      invariant forall k :: 0 <= k < i ==> predictions[k] == Prediction(
        products[k], f.last + day, ToDemand(NextValue(f, products[k], day, start[products[k]])),
        if UsesFallback(f, products[k]) then RecentAverage else RandomForest)
    {
      var p := products[i];
      assert p in products;
      var longer, prediction := PredictOne(f, p, day, histories[p]);
      histories := histories[p := longer];
      predictions := predictions + [prediction];
    }
  }

  lemma AutoregressStep(f: Forecaster, p: ProductId, history: seq<real>, n: nat)
    requires n > 0
    ensures var before := Autoregress(f, p, history, n - 1);
      && Autoregress(f, p, history, n) == before + [NextValue(f, p, n, before)]
      && ForecastOf(f, p, history, n) == Prediction(
           p, f.last + n, ToDemand(NextValue(f, p, n, before)),
           if UsesFallback(f, p) then RecentAverage else RandomForest)
  {
    hide NextValue, ToDemand, UsesFallback;
  }

  /** After the inner loop, histories and rows are those of the isolated recursions, one day further. */
  lemma DayStep(
    f: Forecaster, products: seq<ProductId>, start: map<ProductId, seq<real>>,
    before: map<ProductId, seq<real>>, after: map<ProductId, seq<real>>, rows: seq<Prediction>, day: nat)
    requires day > 0 && before.Keys == after.Keys == start.Keys && |rows| == |products|
    requires forall p :: p in products ==> p in start
    requires forall i :: 0 <= i < |products| ==>
      before[products[i]] == Autoregress(f, products[i], start[products[i]], day - 1)
    requires forall i :: 0 <= i < |products| ==>
      after[products[i]] == before[products[i]] + [NextValue(f, products[i], day, before[products[i]])]
    requires forall i :: 0 <= i < |products| ==> rows[i] == Prediction(
      products[i], f.last + day, ToDemand(NextValue(f, products[i], day, before[products[i]])),
      if UsesFallback(f, products[i]) then RecentAverage else RandomForest)
    ensures forall i :: 0 <= i < |products| ==>
      after[products[i]] == Autoregress(f, products[i], start[products[i]], day)
    ensures rows == DayForecasts(f, products, start, day)
  {
    forall i | 0 <= i < |products|
      ensures after[products[i]] == Autoregress(f, products[i], start[products[i]], day)
      ensures rows[i] == ForecastOf(f, products[i], start[products[i]], day)
    {
      var p := products[i];
      assert p in products;
      AutoregressStep(f, p, start[p], day);
    }
  }

  /**
    The day-major loop over shared, mutated histories produces what each product's recursion
    produces on its own.
    */
  method PredictHorizon(f: Forecaster, products: seq<ProductId>, start: map<ProductId, seq<real>>, horizon: nat)
    returns (predictions: seq<Prediction>)
    requires Distinct(products) && forall p :: p in products ==> p in start
    ensures predictions == AllForecasts(f, products, start, horizon)
  {
    var histories := start;
    predictions := [];
    for done := 0 to horizon
      invariant histories.Keys == start.Keys
      invariant predictions == AllForecasts(f, products, start, done)
      invariant forall i :: 0 <= i < |products| ==>
        histories[products[i]] == Autoregress(f, products[i], start[products[i]], done)
    {
      var longer, today := PredictDay(f, products, histories, done + 1);
      DayStep(f, products, start, histories, longer, today, done + 1);
      histories := longer;
      predictions := predictions + today;
    }
  }

  // ----- the whole pipeline --------------------------------------------------------------------------

  datatype PipelineError = DependenciesMissing | NoForecastDates

  /** The feature frame with its labels, row by row. */
  function LabelledFrame(frame: seq<Row>, products: seq<ProductId>, lib: Library): (r: seq<Labelled>)
    ensures |r| == |frame|
    ensures forall i :: 0 <= i < |r| ==> r[i] == Labelled(
      frame[i].product, frame[i].day,
      FutureFeatureRow(lib, ProductCode(products, frame[i].product), frame[i].day, HistoryOf(frame, i)),
      frame[i].quantity)
  {
    seq(|frame|, i requires 0 <= i < |frame| => Labelled(
      frame[i].product, frame[i].day,
      FutureFeatureRow(lib, ProductCode(products, frame[i].product), frame[i].day, HistoryOf(frame, i)),
      frame[i].quantity))
  }

  method BuildLabelledFrame(daily: seq<Row>, products: seq<ProductId>, lib: Library) returns (labelled: seq<Labelled>)
    requires SortedRows(daily)
    ensures labelled == LabelledFrame(daily, products, lib)
  {
    hide FutureFeatureRow, ProductCode, HistoryOf;
    var frame := new FeatureFrame(daily, products, lib);
    SortRowsKeepsSorted(daily);
    labelled := [];
    for i := 0 to |daily|
      invariant frame.Complete() && frame.rows == daily
      invariant labelled == LabelledFrame(daily, products, lib)[..i]
    {
      labelled := labelled + [Labelled(daily[i].product, daily[i].day, frame.FeaturesAt(i), daily[i].quantity)];
    }
  }

  function LastGridDay(daily: seq<Row>): Day
    requires daily != []
  {
    if |daily| == 1 then daily[0].day
    else
      var rest := LastGridDay(daily[1..]);
      if daily[0].day >= rest then daily[0].day else rest
  }

  function FallbackIds(daily: seq<Row>, products: seq<ProductId>): set<ProductId> {
    set p | p in products && NeedsFallback(Group(daily, p))
  }

  /** _fallback_product_ids: product by product, by length and by number of positive days. */
  method FallbackProductIds(daily: seq<Row>, products: seq<ProductId>) returns (ids: set<ProductId>)
    ensures ids == FallbackIds(daily, products)
  {
    ids := {};
    for i := 0 to |products|
      invariant ids == FallbackIds(daily, products[..i])
    {
      var history := Group(daily, products[i]);
      var positiveDays := |Positive(history)|;
      assert products[..i + 1] == products[..i] + [products[i]];
      if |history| < MIN_PRODUCT_HISTORY_DAYS || positiveDays < MIN_PRODUCT_POSITIVE_DAYS {
        ids := ids + {products[i]};
      }
    }
    assert products[..|products|] == products;
  }

  function Quantities(rows: seq<Scored>): (r: seq<real>)
    ensures |r| == |rows| && forall i :: 0 <= i < |r| ==> r[i] == rows[i].row.quantity
  {
    seq(|rows|, i requires 0 <= i < |rows| => rows[i].row.quantity)
  }

  function Clipped(rows: seq<Scored>): (r: seq<real>)
    ensures |r| == |rows| && forall i :: 0 <= i < |r| ==> r[i] == Evaluation.Max(0.0, rows[i].predicted)
  {
    seq(|rows|, i requires 0 <= i < |rows| => Evaluation.Max(0.0, rows[i].predicted))
  }

  /** What the pipeline prepares before it predicts. */
  datatype Plan = Plan(daily: seq<Row>, trained: Trained, forecaster: Forecaster)

  ghost function PlanOf(products: seq<ProductId>, records: seq<Record>, today: Day, lib: Library, fit: Fitting): Plan
    requires Distinct(products) && products != []
  {
    var daily := AggregateDailySales(products, CleanSales(records), today);
    GridNotEmpty(products, CleanSales(records), today);
    var trained := TrainWithValidation(LabelledFrame(daily, products, lib), fit);
    Plan(daily, trained, Forecaster(lib, products, trained.model, FallbackIds(daily, products), LastGridDay(daily)))
  }

  ghost function Histories(plan: Plan, products: seq<ProductId>): map<ProductId, seq<real>> {
    map p | p in products :: Group(plan.daily, p)
  }

  ghost function OutputOf(plan: Plan, products: seq<ProductId>, horizon: nat): Output {
    var scores := Evaluation.CalculateMetrics(
      Quantities(plan.trained.validation), Clipped(plan.trained.validation), plan.forecaster.lib.root);
    Output(
      products, plan.forecaster.last,
      AllForecasts(plan.forecaster, products, Histories(plan, products), horizon),
      Metrics(
        scores.mae, scores.rmse, scores.mape,
        |plan.trained.train|, |plan.trained.validation|, |products|,
        if plan.trained.model.Some? then |plan.forecaster.fallback| else |products|))
  }

  lemma GridNotEmpty(products: seq<ProductId>, sales: seq<Sale>, today: Day)
    requires Distinct(products) && products != []
    ensures AggregateDailySales(products, sales, today) != []
  {
    GridRowsExact(products, sales, today, products[0]);
    assert products[0] in products;
    assert RowsOfProduct([], products[0]) == [];
  }

  method RunForecastingPipeline(
    depsReady: bool, products: seq<ProductId>, records: seq<Record>, horizon: nat, today: Day,
    lib: Library, fit: Fitting)
    returns (result: Result<Output, PipelineError>)
    requires Distinct(products)
    ensures match result
      case Success(out) =>
        depsReady && products != [] && out == OutputOf(PlanOf(products, records, today, lib, fit), products, horizon)
      case Failure(DependenciesMissing) => !depsReady
      case Failure(NoForecastDates) => depsReady && products == []
  {
    if !depsReady {
      return Failure(DependenciesMissing);
    }
    var sales := SalesRecordsFromObjects(records);
    var daily := AggregateDailySales(products, sales, today);
    GridIsSorted(products, sales, today);
    var labelled := BuildLabelledFrame(daily, products, lib);
    var trained := TrainWithValidation(labelled, fit);
    var scores := Evaluation.CalculateMetrics(Quantities(trained.validation), Clipped(trained.validation), lib.root);
    var fallback := FallbackProductIds(daily, products);
    if products == [] {
      return Failure(NoForecastDates);
    }
    GridNotEmpty(products, sales, today);
    var forecaster := Forecaster(lib, products, trained.model, fallback, LastGridDay(daily));
    var histories := map p | p in products :: Group(daily, p);
    var predictions := PredictHorizon(forecaster, products, histories, horizon);
    var fallbackCount := if trained.model.Some? then |fallback| else |products|;
    result := Success(Output(
      products, forecaster.last, predictions,
      Metrics(
        scores.mae, scores.rmse, scores.mape,
        |trained.train|, |trained.validation|, |products|, fallbackCount)));
  }

  lemma GridIsSorted(products: seq<ProductId>, sales: seq<Sale>, today: Day)
    ensures SortedRows(AggregateDailySales(products, sales, today))
  {
    var kept := Relevant(sales, products);
    SortRowsSorts(CrossJoin(GroupSums(kept), products, Start(kept, today), Days(kept)));
  }
}
