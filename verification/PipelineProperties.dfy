/** What the forecasts of the pipeline mean, and what they do not depend on. */
module PipelineProperties {
  import opened Wrappers
  import opened ForecastTables
  import opened SortedLists
  import opened Features
  import opened DailyGrid
  import opened Training
  import Evaluation
  import opened Fallback
  import opened Pipeline

  // ----- every product-day once, each in isolation ----------------------------------------------

  lemma ForecastSubject(f: Forecaster, p: ProductId, history: seq<real>, ahead: nat)
    requires ahead > 0
    ensures ForecastOf(f, p, history, ahead).product == p && ForecastOf(f, p, history, ahead).day == f.last + ahead
  {
  }

  lemma KeysOfConcat(a: seq<Prediction>, b: seq<Prediction>)
    ensures KeysOf(a + b) == KeysOf(a) + KeysOf(b)
  {
  }

  lemma KeysAre(rows: seq<Prediction>, products: seq<ProductId>, day: Day)
    requires |rows| == |products|
    requires forall i :: 0 <= i < |rows| ==> rows[i].product == products[i] && rows[i].day == day
    ensures KeysOf(rows) == DayKeys(products, day)
  {
  }

  lemma KeysOfDay(f: Forecaster, products: seq<ProductId>, histories: map<ProductId, seq<real>>, ahead: nat)
    requires ahead > 0 && forall p :: p in products ==> p in histories
    ensures KeysOf(DayForecasts(f, products, histories, ahead)) == DayKeys(products, f.last + ahead)
  {
    hide *;
    var rows := DayForecasts(f, products, histories, ahead);
    forall i | 0 <= i < |rows| ensures rows[i].product == products[i] && rows[i].day == f.last + ahead {
      ForecastSubject(f, products[i], histories[products[i]], ahead);
    }
    KeysAre(rows, products, f.last + ahead);
  }

  /** The output's keys are the horizon's keys, so the stored rows meet the unique constraint. */
  lemma {:induction false} ForecastKeys(
    f: Forecaster, products: seq<ProductId>, histories: map<ProductId, seq<real>>, horizon: nat)
    requires forall p :: p in products ==> p in histories
    ensures KeysOf(AllForecasts(f, products, histories, horizon)) == HorizonKeys(products, f.last, horizon)
  {
    hide *;
    if horizon == 0 {
      NoForecastKeys(f, products, histories);
    } else {
      ForecastKeys(f, products, histories, horizon - 1);
      KeysOfDay(f, products, histories, horizon);
      KeysOfConcat(
        AllForecasts(f, products, histories, horizon - 1), DayForecasts(f, products, histories, horizon));
      AllForecastsStep(f, products, histories, horizon);
      HorizonKeysStep(products, f.last, horizon);
    }
  }

  lemma NoForecastKeys(f: Forecaster, products: seq<ProductId>, histories: map<ProductId, seq<real>>)
    requires forall p :: p in products ==> p in histories
    ensures KeysOf(AllForecasts(f, products, histories, 0)) == HorizonKeys(products, f.last, 0)
  {
  }

  lemma HorizonKeysStep(products: seq<ProductId>, last: Day, horizon: nat)
    requires horizon > 0
    ensures HorizonKeys(products, last, horizon)
         == HorizonKeys(products, last, horizon - 1) + DayKeys(products, last + horizon)
  {
  }

  lemma AllForecastsStep(f: Forecaster, products: seq<ProductId>, histories: map<ProductId, seq<real>>, horizon: nat)
    requires horizon > 0 && forall p :: p in products ==> p in histories
    ensures AllForecasts(f, products, histories, horizon)
         == AllForecasts(f, products, histories, horizon - 1) + DayForecasts(f, products, histories, horizon)
  {
  }

  lemma NoForecasts(f: Forecaster, products: seq<ProductId>, histories: map<ProductId, seq<real>>)
    requires forall p :: p in products ==> p in histories
    ensures AllForecasts(f, products, histories, 0) == []
  {
  }

  /** Whatever else was forecast beside it, a row is its own product's recursion run alone. */
  lemma {:induction false} ForecastsAreIsolated(
    f: Forecaster, products: seq<ProductId>, histories: map<ProductId, seq<real>>, horizon: nat)
    requires forall p :: p in products ==> p in histories
    ensures forall x :: x in AllForecasts(f, products, histories, horizon) ==>
      && x.product in products
      && 0 < x.day - f.last <= horizon
      && x == ForecastOf(f, x.product, histories[x.product], x.day - f.last)
  {
    hide *;
    if horizon == 0 {
      NoForecasts(f, products, histories);
    } else {
      ForecastsAreIsolated(f, products, histories, horizon - 1);
      AllForecastsStep(f, products, histories, horizon);
      forall x | x in DayForecasts(f, products, histories, horizon)
        ensures x.product in products && x.day - f.last == horizon
        ensures x == ForecastOf(f, x.product, histories[x.product], horizon)
      {
        DayRowIsIsolated(f, products, histories, horizon, x);
      }
    }
  }

  lemma DayRowIsIsolated(
    f: Forecaster, products: seq<ProductId>, histories: map<ProductId, seq<real>>, ahead: nat, x: Prediction)
    requires ahead > 0 && forall p :: p in products ==> p in histories
    requires x in DayForecasts(f, products, histories, ahead)
    ensures x.product in products && x.day - f.last == ahead
    ensures x == ForecastOf(f, x.product, histories[x.product], ahead)
  {
    hide *;
    var rows := DayForecasts(f, products, histories, ahead);
    var i :| 0 <= i < |rows| && rows[i] == x;
    ForecastSubject(f, products[i], histories[products[i]], ahead);
  }

  /** A pipeline run covers horizon x products, each product-day once, right after the last grid day. */
  lemma OutputIsValid(
    products: seq<ProductId>, records: seq<Record>, horizon: nat, today: Day, lib: Library, fit: Fitting)
    requires Distinct(products) && products != []
    ensures var out := OutputOf(PlanOf(products, records, today, lib, fit), products, horizon);
      && ValidOutput(out, horizon)
      && UniqueKeys(out.predictions)
      && |out.predictions| == horizon * |products|
      && out.lastDay == Start(Relevant(CleanSales(records), products), today)
                      + Days(Relevant(CleanSales(records), products)) - 1
  {
    var plan := PlanOf(products, records, today, lib, fit);
    ForecastKeys(plan.forecaster, products, Histories(plan, products), horizon);
    ValidOutputIsComplete(OutputOf(plan, products, horizon), horizon);
    GridEndsOnLastDay(products, CleanSales(records), today);
  }

  lemma {:induction false} LastGridDayExact(daily: seq<Row>)
    requires daily != []
    ensures forall r :: r in daily ==> r.day <= LastGridDay(daily)
    ensures exists r :: r in daily && r.day == LastGridDay(daily)
  {
    assert daily[0] in daily;
    if |daily| > 1 {
      LastGridDayExact(daily[1..]);
      var r :| r in daily[1..] && r.day == LastGridDay(daily[1..]);
      assert daily == [daily[0]] + daily[1..];
    }
  }

  lemma {:induction false} RowInItsProduct(frame: seq<Row>, r: Row)
    ensures r in frame <==> r in RowsOfProduct(frame, r.product)
  {
    if frame != [] {
      RowInItsProduct(frame[1..], r);
      assert frame == [frame[0]] + frame[1..];
    }
  }

  lemma GridEndsOnLastDay(products: seq<ProductId>, sales: seq<Sale>, today: Day)
    requires Distinct(products) && products != []
    ensures AggregateDailySales(products, sales, today) != []
    ensures LastGridDay(AggregateDailySales(products, sales, today))
         == Start(Relevant(sales, products), today) + Days(Relevant(sales, products)) - 1
  {
    var daily, kept := AggregateDailySales(products, sales, today), Relevant(sales, products);
    var last := Start(kept, today) + Days(kept) - 1;
    GridNotEmpty(products, sales, today);
    LastGridDayExact(daily);
    forall r | r in daily ensures r.day <= last {
      RowInItsProduct(daily, r);
      GridRowsExact(products, sales, today, r.product);
    }
    var p := products[0];
    assert p in products;
    GridRowsExact(products, sales, today, p);
    var final := TotalsRows(kept, p, Start(kept, today), Days(kept))[Days(kept) - 1];
    RowInItsProduct(daily, final);
  }

  // ----- rows of the training report ------------------------------------------------------------------

  lemma {:induction false} CrossJoinSize(sums: map<Key, real>, products: seq<ProductId>, start: Day, days: nat)
    ensures |CrossJoin(sums, products, start, days)| == |products| * days
  {
    if products != [] { CrossJoinSize(sums, products[1..], start, days); }
  }

  /** On every path, training rows and validation rows together are products x days. */
  lemma ReportedRowsAddUp(
    products: seq<ProductId>, records: seq<Record>, horizon: nat, today: Day, lib: Library, fit: Fitting)
    requires Distinct(products) && products != []
    ensures var m := OutputOf(PlanOf(products, records, today, lib, fit), products, horizon).metrics;
      m.trainingRows + m.validationRows == |products| * Days(Relevant(CleanSales(records), products))
  {
    var plan := PlanOf(products, records, today, lib, fit);
    var kept := Relevant(CleanSales(records), products);
    var grid := CrossJoin(GroupSums(kept), products, Start(kept, today), Days(kept));
    SplitIsChronologicalAndLossless(LabelledFrame(plan.daily, products, lib), fit);
    SortRowsSorts(grid);
    assert |SortRows(grid)| == |multiset(SortRows(grid))| == |grid|;
    CrossJoinSize(GroupSums(kept), products, Start(kept, today), Days(kept));
  }

  /** All histories are equally long, so too little history puts every product on the fallback or none. */
  lemma ShortHistoryIsAllOrNone(products: seq<ProductId>, records: seq<Record>, today: Day, p: ProductId, q: ProductId)
    requires Distinct(products) && p in products && q in products
    ensures var daily := AggregateDailySales(products, CleanSales(records), today);
      |Group(daily, p)| < MIN_PRODUCT_HISTORY_DAYS <==> |Group(daily, q)| < MIN_PRODUCT_HISTORY_DAYS
  {
    GridConservesSales(products, records, today, p);
    GridConservesSales(products, records, today, q);
  }

  // ----- fallback forecasts, over the whole horizon ------------------------------------------------------

  lemma {:induction false} AutoregressIsFallbackRun(f: Forecaster, p: ProductId, history: seq<real>, n: nat)
    requires UsesFallback(f, p) && history != [] && NonNegative(history)
    ensures Autoregress(f, p, history, n) == FallbackRun(history, n)
  {
    if n > 0 {
      AutoregressIsFallbackRun(f, p, history, n - 1);
      FallbackForecastsBounded(history, n - 1);
      FallbackBounds(FallbackRun(history, n - 1));
    }
  }

  /**
    A fallback forecast of any day never exceeds the largest daily quantity observed, and it is
    zero before rounding exactly when the product never sold anything.
    */
  lemma FallbackForecastOfDay(
    products: seq<ProductId>, records: seq<Record>, today: Day, f: Forecaster, p: ProductId, ahead: nat)
    requires Distinct(products) && p in products && UsesFallback(f, p) && ahead > 0
    ensures var history := Group(AggregateDailySales(products, CleanSales(records), today), p);
      var run := Autoregress(f, p, history, ahead);
      && history != []
      && 0.0 <= run[|run| - 1] <= Evaluation.Largest(history)
      && (run[|run| - 1] == 0.0 <==> AllZero(history))
  {
    var history := Group(AggregateDailySales(products, CleanSales(records), today), p);
    HistoryOfProduct(products, CleanSales(records), today, p);
    AutoregressIsFallbackRun(f, p, history, ahead);
    FallbackForecastsBounded(history, ahead);
  }

  /**
    The window that the fallback forecasts of a product look back on, day after day: it stays within
    what it was on any earlier day, exactly when that day's recent mean was positive or the product
    never sold anything.
    */
  lemma FallbackWindowOfForecasts(
    products: seq<ProductId>, records: seq<Record>, today: Day, f: Forecaster, p: ProductId, n: nat, m: nat)
    requires Distinct(products) && p in products && UsesFallback(f, p) && n < m
    ensures var history := Group(AggregateDailySales(products, CleanSales(records), today), p);
      var before, after := Last(Autoregress(f, p, history, n), 7), Last(Autoregress(f, p, history, m), 7);
      && history != [] && before != [] && after != []
      && (Within(after, before) <==> Average(before) > 0.0 || AllZero(history))
      && (Average(before) > 0.0 ==> Average(after) > 0.0)
  {
    hide AggregateDailySales, CleanSales, Autoregress, Within, AllZero;
    var history := Group(AggregateDailySales(products, CleanSales(records), today), p);
    HistoryOfProduct(products, CleanSales(records), today, p);
    AutoregressIsFallbackRun(f, p, history, n);
    AutoregressIsFallbackRun(f, p, history, m);
    WindowNarrowsOverRun(history, n, m);
    assert WindowAt(history, n) != [] && WindowAt(history, m) != [];
  }

  // ----- the order of the products does not matter ---------------------------------------------------------

  ghost predicate SameElements(a: seq<ProductId>, b: seq<ProductId>) {
    forall p :: p in a <==> p in b
  }

  lemma {:induction false} RelevantIgnoresOrder(sales: seq<Sale>, a: seq<ProductId>, b: seq<ProductId>)
    requires SameElements(a, b)
    ensures Relevant(sales, a) == Relevant(sales, b)
  {
    if sales != [] { RelevantIgnoresOrder(sales[1..], a, b); }
  }

  lemma CodeIgnoresOrder(a: seq<ProductId>, b: seq<ProductId>, p: ProductId)
    requires SameElements(a, b)
    ensures ProductCode(a, p) == ProductCode(b, p)
  {
    SortedSetExact(a);
    SortedSetExact(b);
    forall y ensures y in SortedSet(a) <==> y in SortedSet(b) {
      if y >= 0 {
        assert (y as ProductId) in a <==> (y as ProductId) in b;
      }
    }
    SameElementsSameList(SortedSet(a), SortedSet(b));
  }

  lemma {:induction false} CountInProduct(frame: seq<Row>, r: Row)
    ensures multiset(frame)[r] == multiset(RowsOfProduct(frame, r.product))[r]
  {
    if frame == [] {
      NoRowsOfProduct(r.product);
    } else {
      hide RowsOfProduct;
      CountInProduct(frame[1..], r);
      RowsOfProductCons(frame[0], frame[1..], r.product);
      assert frame == [frame[0]] + frame[1..];
    }
  }

  predicate KeysDetermineRows(frame: seq<Row>) {
    forall x, y :: x in frame && y in frame && x.product == y.product && x.day == y.day ==> x == y
  }

  lemma SortedHeadsEqual(a: seq<Row>, b: seq<Row>)
    requires a != [] && b != []
    requires SortedRows(a) && SortedRows(b) && multiset(a) == multiset(b) && KeysDetermineRows(a)
    ensures a[0] == b[0] && multiset(a[1..]) == multiset(b[1..])
  {
    assert a[0] in multiset(b) && b[0] in multiset(a);
    FirstIsLeast(a, b[0]);
    FirstIsLeast(b, a[0]);
    assert a[0] in a && b[0] in a;
    assert a == [a[0]] + a[1..] && b == [b[0]] + b[1..];
    assert multiset(a[1..]) == multiset(a) - multiset{a[0]};
  }

  lemma TailKeepsFrame(a: seq<Row>)
    requires a != [] && SortedRows(a) && KeysDetermineRows(a)
    ensures SortedRows(a[1..]) && KeysDetermineRows(a[1..])
  {
    assert forall x :: x in a[1..] ==> x in a;
  }

  /** A sorted frame is determined by its rows, when no two of them share product and day. */
  lemma {:induction false} SortedFramesEqual(a: seq<Row>, b: seq<Row>)
    requires SortedRows(a) && SortedRows(b) && multiset(a) == multiset(b) && KeysDetermineRows(a)
    ensures a == b
  {
    assert |a| == |multiset(a)| == |multiset(b)| == |b|;
    if a != [] {
      SortedHeadsEqual(a, b);
      TailKeepsFrame(a);
      SortedFramesEqual(a[1..], b[1..]);
      assert a == [a[0]] + a[1..] && b == [b[0]] + b[1..];
    }
  }

  lemma FirstIsLeast(frame: seq<Row>, r: Row)
    requires SortedRows(frame) && r in frame
    ensures RowLeq(frame[0], r)
  {
  }

  lemma GridKeysDetermineRows(products: seq<ProductId>, sales: seq<Sale>, today: Day)
    requires Distinct(products)
    ensures KeysDetermineRows(AggregateDailySales(products, sales, today))
  {
    hide AggregateDailySales, RowsOfProduct;
    var daily, kept := AggregateDailySales(products, sales, today), Relevant(sales, products);
    forall x, y | x in daily && y in daily && x.product == y.product && x.day == y.day ensures x == y {
      RowInItsProduct(daily, x);
      RowInItsProduct(daily, y);
      GridRowsExact(products, sales, today, x.product);
    }
  }

  lemma GridIgnoresProductOrder(a: seq<ProductId>, b: seq<ProductId>, sales: seq<Sale>, today: Day)
    requires Distinct(a) && Distinct(b) && SameElements(a, b)
    ensures AggregateDailySales(a, sales, today) == AggregateDailySales(b, sales, today)
  {
    var x, y := AggregateDailySales(a, sales, today), AggregateDailySales(b, sales, today);
    RelevantIgnoresOrder(sales, a, b);
    forall r ensures multiset(x)[r] == multiset(y)[r] {
      CountInProduct(x, r);
      CountInProduct(y, r);
      GridRowsExact(a, sales, today, r.product);
      GridRowsExact(b, sales, today, r.product);
    }
    assert multiset(x) == multiset(y);
    GridIsSorted(a, sales, today);
    GridIsSorted(b, sales, today);
    GridKeysDetermineRows(a, sales, today);
    SortedFramesEqual(x, y);
  }

  lemma {:induction false} CleanCount(records: seq<Record>, s: Sale)
    ensures multiset(CleanSales(records))[s]
         == if s.quantity > 0 then multiset(records)[Record(s.product, Some(s.day), Some(s.quantity))] else 0
  {
    if records != [] {
      var last := records[|records| - 1];
      CleanCount(records[..|records| - 1], s);
      assert records == records[..|records| - 1] + [last];
    }
  }

  lemma FrameIgnoresRecordOrder(products: seq<ProductId>, a: seq<Sale>, b: seq<Sale>, today: Day)
    requires Distinct(products) && multiset(a) == multiset(b)
    ensures AggregateDailySales(products, a, today) == AggregateDailySales(products, b, today)
  {
    hide AggregateDailySales;
    var x, y := AggregateDailySales(products, a, today), AggregateDailySales(products, b, today);
    forall r ensures multiset(x)[r] == multiset(y)[r] {
      CountInProduct(x, r);
      CountInProduct(y, r);
      GridIgnoresRecordOrder(products, a, b, today, r.product);
    }
    assert multiset(x) == multiset(y);
    GridIsSorted(products, a, today);
    GridIsSorted(products, b, today);
    GridKeysDetermineRows(products, a, today);
    SortedFramesEqual(x, y);
  }

  /** The same records in another order lead to the same plan, and so to the same output. */
  lemma RecordOrderIsIrrelevant(
    products: seq<ProductId>, a: seq<Record>, b: seq<Record>, horizon: nat, today: Day, lib: Library, fit: Fitting)
    requires Distinct(products) && products != [] && multiset(a) == multiset(b)
    ensures PlanOf(products, a, today, lib, fit) == PlanOf(products, b, today, lib, fit)
    ensures OutputOf(PlanOf(products, a, today, lib, fit), products, horizon)
         == OutputOf(PlanOf(products, b, today, lib, fit), products, horizon)
  {
    hide AggregateDailySales, CleanSales;
    var x, y := CleanSales(a), CleanSales(b);
    forall s ensures multiset(x)[s] == multiset(y)[s] {
      CleanCount(a, s);
      CleanCount(b, s);
    }
    assert multiset(x) == multiset(y);
    FrameIgnoresRecordOrder(products, x, y, today);
  }

  ghost predicate SameButIds(f: Forecaster, g: Forecaster) {
    g == f.(ids := g.ids)
  }

  lemma NextValueIgnoresOrder(f: Forecaster, g: Forecaster, p: ProductId, ahead: nat, history: seq<real>)
    requires SameButIds(f, g) && ProductCode(f.ids, p) == ProductCode(g.ids, p)
    ensures NextValue(f, p, ahead, history) == NextValue(g, p, ahead, history)
  {
    hide PredictWith, ProductCode, Evaluation.Max;
  }

  lemma NoAutoregress(f: Forecaster, p: ProductId, history: seq<real>)
    ensures Autoregress(f, p, history, 0) == history
  {
  }

  lemma {:induction false} ForecastIgnoresOrder(f: Forecaster, g: Forecaster, p: ProductId, history: seq<real>, n: nat)
    requires SameButIds(f, g) && ProductCode(f.ids, p) == ProductCode(g.ids, p)
    ensures Autoregress(f, p, history, n) == Autoregress(g, p, history, n)
    ensures n > 0 ==> ForecastOf(f, p, history, n) == ForecastOf(g, p, history, n)
  {
    hide Autoregress, ForecastOf, NextValue, ToDemand, ProductCode;
    if n == 0 {
      NoAutoregress(f, p, history);
      NoAutoregress(g, p, history);
    } else {
      ForecastIgnoresOrder(f, g, p, history, n - 1);
      AutoregressStep(f, p, history, n);
      AutoregressStep(g, p, history, n);
      NextValueIgnoresOrder(f, g, p, n, Autoregress(f, p, history, n - 1));
    }
  }

  lemma PlanIgnoresOrder(
    a: seq<ProductId>, b: seq<ProductId>, records: seq<Record>, today: Day, lib: Library, fit: Fitting)
    requires Distinct(a) && Distinct(b) && SameElements(a, b) && a != [] && b != []
    ensures var x, y := PlanOf(a, records, today, lib, fit), PlanOf(b, records, today, lib, fit);
      y == x.(forecaster := x.forecaster.(ids := b))
  {
    GridIgnoresProductOrder(a, b, CleanSales(records), today);
    var daily := AggregateDailySales(a, CleanSales(records), today);
    forall i | 0 <= i < |daily| ensures ProductCode(a, daily[i].product) == ProductCode(b, daily[i].product) {
      CodeIgnoresOrder(a, b, daily[i].product);
    }
    assert LabelledFrame(daily, a, lib) == LabelledFrame(daily, b, lib);
    assert FallbackIds(daily, a) == FallbackIds(daily, b);
  }

  /**
    From the records to the rows: listing the same products in another order yields the same
    forecast for every product and day.
    */
  lemma ProductOrderIsIrrelevant(
    a: seq<ProductId>, b: seq<ProductId>, records: seq<Record>, horizon: nat, today: Day, lib: Library, fit: Fitting)
    requires Distinct(a) && Distinct(b) && SameElements(a, b) && a != [] && b != []
    ensures var x := OutputOf(PlanOf(a, records, today, lib, fit), a, horizon).predictions;
      var y := OutputOf(PlanOf(b, records, today, lib, fit), b, horizon).predictions;
      forall r, s :: r in x && s in y && r.product == s.product && r.day == s.day ==> r == s
  {
    var p, q := PlanOf(a, records, today, lib, fit), PlanOf(b, records, today, lib, fit);
    PlanIgnoresOrder(a, b, records, today, lib, fit);
    RowsIgnoreOrder(p.forecaster, q.forecaster, a, b, Histories(p, a), Histories(q, b), horizon);
  }

  lemma RowsIgnoreOrder(
    f: Forecaster, g: Forecaster, a: seq<ProductId>, b: seq<ProductId>,
    x: map<ProductId, seq<real>>, y: map<ProductId, seq<real>>, horizon: nat)
    requires f.ids == a && g.ids == b && SameButIds(f, g) && SameElements(a, b)
    requires (forall p :: p in a ==> p in x) && (forall p :: p in b ==> p in y)
    requires forall p :: p in x && p in y ==> x[p] == y[p]
    ensures forall r, s ::
      (r in AllForecasts(f, a, x, horizon) && s in AllForecasts(g, b, y, horizon)
       && r.product == s.product && r.day == s.day)
      ==> r == s
  {
    hide AllForecasts, ForecastOf, Autoregress;
    forall r, s
      | r in AllForecasts(f, a, x, horizon) && s in AllForecasts(g, b, y, horizon)
        && r.product == s.product && r.day == s.day
      ensures r == s
    {
      RowIsIsolated(f, a, x, horizon, r);
      RowIsIsolated(g, b, y, horizon, s);
      CodeIgnoresOrder(a, b, r.product);
      ForecastIgnoresOrder(f, g, r.product, x[r.product], r.day - f.last);
    }
  }

  lemma RowIsIsolated(
    f: Forecaster, products: seq<ProductId>, histories: map<ProductId, seq<real>>, horizon: nat, row: Prediction)
    requires forall p :: p in products ==> p in histories
    requires row in AllForecasts(f, products, histories, horizon)
    ensures row.product in products && 0 < row.day - f.last <= horizon
    ensures row == ForecastOf(f, row.product, histories[row.product], row.day - f.last)
  {
    hide *;
    ForecastsAreIsolated(f, products, histories, horizon);
  }
}
