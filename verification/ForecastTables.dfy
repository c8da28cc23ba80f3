/** The prediction and metric rows a forecast run stores. */
module ForecastTables {
  import opened Wrappers

  type ProductId = nat
  type Day = int
  type UserId = nat
  type RunId = nat

  datatype ModelName = RandomForest | RecentAverage

  /** `demand` counts thousandths, the quantum of the stored column. */
  datatype Prediction = Prediction(product: ProductId, day: Day, demand: nat, model: ModelName)

  /** Metric values count ten-thousandths; None stands for a missing value. */
  datatype Metrics = Metrics(
    mae: Option<int>,
    rmse: Option<int>,
    mape: Option<int>,
    trainingRows: nat,
    validationRows: nat,
    totalProducts: nat,
    fallbackProducts: nat)

  /** A pipeline result: what it forecast, from which day on, and how well it validated. */
  datatype Output = Output(
    products: seq<ProductId>,
    lastDay: Day,
    predictions: seq<Prediction>,
    metrics: Metrics)

  /** A row of a table that belongs to a run. */
  datatype Stored<+T> = Stored(user: UserId, run: RunId, value: T)

  type PredictionRow = Stored<Prediction>

  type MetricRow = Stored<Metrics>

  predicate Distinct<T(==)>(s: seq<T>) {
    forall i, j :: 0 <= i < j < |s| ==> s[i] != s[j]
  }

  datatype Key = Key(product: ProductId, day: Day)

  function KeysOf(rows: seq<Prediction>): (r: seq<Key>)
    ensures |r| == |rows|
    ensures forall i :: 0 <= i < |r| ==> r[i] == Key(rows[i].product, rows[i].day)
  {
    seq(|rows|, i requires 0 <= i < |rows| => Key(rows[i].product, rows[i].day))
  }

  function DayKeys(products: seq<ProductId>, day: Day): (r: seq<Key>)
    ensures |r| == |products|
    ensures forall i :: 0 <= i < |r| ==> r[i] == Key(products[i], day)
  {
    seq(|products|, i requires 0 <= i < |products| => Key(products[i], day))
  }

  /** Day-major: every product on day last + 1, then every product on day last + 2, ... */
  function HorizonKeys(products: seq<ProductId>, last: Day, horizon: nat): seq<Key> {
    if horizon == 0 then []
    else HorizonKeys(products, last, horizon - 1) + DayKeys(products, last + horizon)
  }

  predicate ValidOutput(out: Output, horizon: nat) {
    && Distinct(out.products)
    && KeysOf(out.predictions) == HorizonKeys(out.products, out.lastDay, horizon)
  }

  /** uq_forecast_predictions_run_product_date, for the rows of one run. */
  predicate UniqueKeys(rows: seq<Prediction>) {
    Distinct(KeysOf(rows))
  }

  /** The horizon's keys: horizon x products of them, each (product, day) exactly once. */
  lemma {:induction false} HorizonKeysExact(products: seq<ProductId>, last: Day, horizon: nat)
    requires Distinct(products)
    ensures |HorizonKeys(products, last, horizon)| == horizon * |products|
    ensures Distinct(HorizonKeys(products, last, horizon))
    ensures forall k ::
      (k in HorizonKeys(products, last, horizon) <==> k.product in products && last < k.day <= last + horizon)
  {
    if horizon > 0 {
      HorizonKeysExact(products, last, horizon - 1);
      var before, today := HorizonKeys(products, last, horizon - 1), DayKeys(products, last + horizon);
      forall k: Key ensures k in today <==> k.product in products && k.day == last + horizon {
        if k.product in products && k.day == last + horizon {
          var i :| 0 <= i < |products| && products[i] == k.product;
          assert today[i] == k;
        }
      }
      assert forall k :: k in before ==> k.day < last + horizon;
      assert forall i :: 0 <= i < |before| ==> before[i] in before;
      assert forall i :: 0 <= i < |today| ==> today[i] in today;
      assert horizon * |products| == (horizon - 1) * |products| + |products|;
    }
  }

  /** A pipeline result satisfies the unique constraint and holds every product-day of its horizon once. */
  lemma ValidOutputIsComplete(out: Output, horizon: nat)
    requires ValidOutput(out, horizon)
    ensures UniqueKeys(out.predictions)
    ensures |out.predictions| == horizon * |out.products|
    ensures forall k ::
      (k in KeysOf(out.predictions) <==> k.product in out.products && out.lastDay < k.day <= out.lastDay + horizon)
  {
    HorizonKeysExact(out.products, out.lastDay, horizon);
  }

  // ----- rows of one run -------------------------------------------------------------------

  function RowsOfOne<T>(row: Stored<T>, run: RunId): seq<T> {
    if row.run == run then [row.value] else []
  }

  function RowsOf<T>(table: seq<Stored<T>>, run: RunId): (r: seq<T>) {
    if table == [] then [] else RowsOfOne(table[0], run) + RowsOf(table[1..], run)
  }

  /** delete ... where user_id = user and forecast_run_id = run */
  function DeleteRows<T>(table: seq<Stored<T>>, user: UserId, run: RunId): (r: seq<Stored<T>>)
    ensures forall row :: row in r ==> row in table
  {
    if table == [] then []
    else (if table[0].user == user && table[0].run == run then [] else [table[0]]) + DeleteRows(table[1..], user, run)
  }

  function NewRows<T>(user: UserId, run: RunId, values: seq<T>): (r: seq<Stored<T>>)
    ensures |r| == |values|
    ensures forall i :: 0 <= i < |r| ==> r[i] == Stored(user, run, values[i])
  {
    seq(|values|, i requires 0 <= i < |values| => Stored(user, run, values[i]))
  }

  ghost predicate OwnedBy<T>(table: seq<Stored<T>>, run: RunId, user: UserId) {
    forall row :: row in table && row.run == run ==> row.user == user
  }

  lemma {:induction false} RowsOfConcat<T>(a: seq<Stored<T>>, b: seq<Stored<T>>, run: RunId)
    ensures RowsOf(a + b, run) == RowsOf(a, run) + RowsOf(b, run)
  {
    if a == [] {
      assert a + b == b;
    } else {
      assert (a + b)[1..] == a[1..] + b;
      calc {
        RowsOf(a + b, run);
        RowsOfOne(a[0], run) + RowsOf(a[1..] + b, run);
        { RowsOfConcat(a[1..], b, run); }
        RowsOfOne(a[0], run) + (RowsOf(a[1..], run) + RowsOf(b, run));
        RowsOf(a, run) + RowsOf(b, run);
      }
    }
  }

  lemma {:induction false} RowsOfNew<T>(user: UserId, run: RunId, values: seq<T>, other: RunId)
    ensures RowsOf(NewRows(user, run, values), other) == if other == run then values else []
  {
    if values != [] {
      RowsOfNew(user, run, values[1..], other);
      assert NewRows(user, run, values)[1..] == NewRows(user, run, values[1..]);
    }
  }

  lemma {:induction false} RowsOfDeleted<T>(table: seq<Stored<T>>, user: UserId, run: RunId, other: RunId)
    requires OwnedBy(table, run, user)
    ensures RowsOf(DeleteRows(table, user, run), other) == if other == run then [] else RowsOf(table, other)
  {
    if table != [] {
      assert forall row :: row in table[1..] ==> row in table;
      assert table[0] in table;
      RowsOfDeleted(table[1..], user, run, other);
      var head := if table[0].user == user && table[0].run == run then [] else [table[0]];
      RowsOfConcat(head, DeleteRows(table[1..], user, run), other);
    }
  }

  /** Delete, then insert. */
  function ReplaceRows<T>(table: seq<Stored<T>>, user: UserId, run: RunId, values: seq<T>): seq<Stored<T>> {
    DeleteRows(table, user, run) + NewRows(user, run, values)
  }

  /** A replacement leaves exactly the new rows for its run and every other run untouched. */
  lemma ReplacementIsExact<T>(table: seq<Stored<T>>, user: UserId, run: RunId, values: seq<T>, other: RunId)
    requires OwnedBy(table, run, user)
    ensures RowsOf(ReplaceRows(table, user, run, values), other)
         == if other == run then values else RowsOf(table, other)
  {
    RowsOfDeleted(table, user, run, other);
    RowsOfNew(user, run, values, other);
    RowsOfConcat(DeleteRows(table, user, run), NewRows(user, run, values), other);
  }

  lemma ReplacementOwners<T>(table: seq<Stored<T>>, user: UserId, run: RunId, values: seq<T>)
    ensures forall row :: row in ReplaceRows(table, user, run, values) ==>
      row in table || (row.user == user && row.run == run)
  {
    forall row | row in ReplaceRows(table, user, run, values) && row !in table
      ensures row.user == user && row.run == run
    {
      assert row in NewRows(user, run, values);
    }
  }
}
