/** History and calendar features: the batch columns used to train, and the row used to serve. */
module Features {
  import opened Wrappers
  import opened ForecastTables
  import opened SortedLists

  /** One product-day of the daily grid. */
  datatype Row = Row(product: ProductId, day: Day, quantity: real)

  datatype FeatureRow = FeatureRow(
    productCode: int,
    dayOfWeek: int,
    dayOfMonth: int,
    month: int,
    isWeekend: int,
    lag1: real,
    lag7: real,
    rollingMean7: real,
    rollingMean14: real,
    rollingStd7: real)

  /** Calendar reads of a date, and the square root of a variance. */
  datatype Library = Library(dayOfWeek: Day -> int, dayOfMonth: Day -> int, month: Day -> int, root: real -> real)

  // ----- product codes -----------------------------------------------------------------------

  /** product_code_map: the position of an id among the sorted ids; -1 for an unknown id. */
  function ProductCode(ids: seq<ProductId>, p: ProductId): int {
    SortedSetExact(ids);
    if p in ids then Position(SortedSet(ids), p) else -1
  }

  /** Codes are distinct, ordered like the ids, and within 0 .. n - 1. */
  lemma ProductCodesAreRanks(ids: seq<ProductId>, p: ProductId, q: ProductId)
    requires Distinct(ids) && p in ids && q in ids
    ensures 0 <= ProductCode(ids, p) < |ids|
    ensures ProductCode(ids, p) < ProductCode(ids, q) <==> p < q
  {
    SortedSetExact(ids);
    var sorted := SortedSet(ids);
    var i, j := Position(sorted, p), Position(sorted, q);
    assert i < j ==> sorted[i] < sorted[j];
    assert j < i ==> sorted[j] < sorted[i];
  }

  // ----- arithmetic both sides share -----------------------------------------------------------

  function Sum(s: seq<real>): real {
    if s == [] then 0.0 else s[0] + Sum(s[1..])
  }

  function SquaresFrom(s: seq<real>, centre: real): real {
    if s == [] then 0.0 else (s[0] - centre) * (s[0] - centre) + SquaresFrom(s[1..], centre)
  }

  function Average(s: seq<real>): real
    requires s != []
  {
    Sum(s) / (|s| as real)
  }

  /** Sample standard deviation, with n - 1 in the denominator. */
  function Deviation(s: seq<real>, root: real -> real): real
    requires |s| >= 2
  {
    root(SquaresFrom(s, Average(s)) / ((|s| - 1) as real))
  }

  function Last(s: seq<real>, n: nat): (r: seq<real>)
    ensures |r| == if |s| <= n then |s| else n
    ensures forall i :: 0 <= i < |r| ==> r[i] == s[|s| - |r| + i]
  {
    if |s| <= n then s else s[|s| - n..]
  }

  // ----- serving: one row from a history -------------------------------------------------------

  /** `_mean`: zero for an empty list. */
  function MeanOrZero(s: seq<real>): real {
    if s == [] then 0.0 else Average(s)
  }

  /** `_std`: zero for fewer than two values. */
  function DeviationOrZero(s: seq<real>, root: real -> real): real {
    if |s| < 2 then 0.0 else Deviation(s, root)
  }

  function FutureFeatureRow(lib: Library, code: int, day: Day, history: seq<real>): FeatureRow {
    var weekday := lib.dayOfWeek(day);
    FeatureRow(
      code, weekday, lib.dayOfMonth(day), lib.month(day), if weekday >= 5 then 1 else 0,
      if history == [] then 0.0 else history[|history| - 1],
      if |history| >= 7 then history[|history| - 7] else 0.0,
      MeanOrZero(Last(history, 7)),
      MeanOrZero(Last(history, 14)),
      DeviationOrZero(Last(history, 7), lib.root))
  }

  /** The sum of the last k values. */
  function SumOfLast(history: seq<real>, k: nat): real
    requires k <= |history|
  {
    Sum(history[|history| - k..])
  }

  /** k values times their mean are their sum; fewer are used when there are fewer, and none give zero. */
  predicate IsMeanOfLast(mean: real, history: seq<real>, k: nat) {
    if history == [] then mean == 0.0
    else if |history| >= k then mean * k as real == SumOfLast(history, k)
    else mean * |history| as real == SumOfLast(history, |history|)
  }

  /** A feature row, said of single days: one and seven days back, and the last seven and fourteen days. */
  lemma FeatureRowExact(lib: Library, code: int, day: Day, history: seq<real>)
    ensures var row, n := FutureFeatureRow(lib, code, day, history), |history|;
      && row.productCode == code
      && row.dayOfWeek == lib.dayOfWeek(day) && row.dayOfMonth == lib.dayOfMonth(day) && row.month == lib.month(day)
      && (0 <= row.dayOfWeek <= 6 ==> row.isWeekend == if row.dayOfWeek == 5 || row.dayOfWeek == 6 then 1 else 0)
      && row.lag1 == (if n >= 1 then history[n - 1] else 0.0)
      && row.lag7 == (if n >= 7 then history[n - 7] else 0.0)
      && IsMeanOfLast(row.rollingMean7, history, 7)
      && IsMeanOfLast(row.rollingMean14, history, 14)
  {
    MeanOfLast(history, 7);
    MeanOfLast(history, 14);
  }

  lemma MeanOfLast(history: seq<real>, k: nat)
    requires k > 0
    ensures IsMeanOfLast(MeanOrZero(Last(history, k)), history, k)
  {
    var window := Last(history, k);
    if history != [] {
      assert window == history[|history| - |window|..];
      MeanTimesCount(window);
    }
  }

  lemma MeanTimesCount(s: seq<real>)
    requires s != []
    ensures Average(s) * |s| as real == Sum(s)
  {
    QuotientTimes(Sum(s), |s| as real);
  }

  lemma QuotientTimes(a: real, n: real)
    requires n != 0.0
    ensures (a / n) * n == a
  {
  }

  /**
    The deviation: squared and times one less than the count, it is the sum of the squared distances
    of up to seven days from their mean.
    */
  lemma DeviationExact(lib: Library, code: int, day: Day, history: seq<real>)
    requires forall x :: x >= 0.0 ==> lib.root(x) >= 0.0 && lib.root(x) * lib.root(x) == x
    ensures var row, k := FutureFeatureRow(lib, code, day, history), if |history| < 7 then |history| else 7;
      if k < 2 then row.rollingStd7 == 0.0
      else
        && row.rollingStd7 >= 0.0
        && row.rollingStd7 * row.rollingStd7 * (k - 1) as real
           == SquaresFrom(history[|history| - k..], row.rollingMean7)
  {
    hide Average, SquaresFrom;
    var window := Last(history, 7);
    if |window| >= 2 {
      assert window == history[|history| - |window|..];
      RootOfMeanSquare(SquaresFrom(window, Average(window)), (|window| - 1) as real, lib.root) by {
        SquaresNotNegative(window, Average(window));
      }
    }
  }

  lemma RootOfMeanSquare(squares: real, n: real, root: real -> real)
    requires squares >= 0.0 && n > 0.0
    requires forall x :: x >= 0.0 ==> root(x) >= 0.0 && root(x) * root(x) == x
    ensures root(squares / n) >= 0.0 && root(squares / n) * root(squares / n) * n == squares
  {
    QuotientNotNegative(squares, n);
    QuotientTimes(squares, n);
  }

  lemma {:induction false} SquaresNotNegative(s: seq<real>, centre: real)
    ensures SquaresFrom(s, centre) >= 0.0
  {
    if s != [] {
      SquaresNotNegative(s[1..], centre);
      SquareNotNegative(s[0] - centre);
    }
  }

  lemma SquareNotNegative(x: real)
    ensures x * x >= 0.0
  {
  }

  lemma QuotientNotNegative(a: real, n: real)
    requires a >= 0.0 && n > 0.0
    ensures a / n >= 0.0
  {
  }

  // ----- batch: columns over a group, as pandas computes them ------------------------------------

  /** Series.shift(k): the value k places up, missing at the top. */
  function Shift(values: seq<Option<real>>, k: nat): (r: seq<Option<real>>)
    ensures |r| == |values|
    ensures forall i :: 0 <= i < |r| ==> r[i] == if i < k then None else values[i - k]
  {
    seq(|values|, i requires 0 <= i < |values| => if i < k then None else values[i - k])
  }

  /** The values present in a window; missing ones are skipped. */
  function Present(window: seq<Option<real>>): seq<real> {
    if window == [] then []
    else (if window[0].Some? then [window[0].value] else []) + Present(window[1..])
  }

  /** The window of a rolling computation that ends at row i. */
  function Window(values: seq<Option<real>>, i: nat, width: nat): seq<Option<real>>
    requires i < |values|
  {
    values[(if i + 1 < width then 0 else i + 1 - width)..i + 1]
  }

  /** rolling(width, min_periods).mean() */
  function RollingMean(values: seq<Option<real>>, width: nat, minPeriods: nat): (r: seq<Option<real>>)
    requires minPeriods >= 1
    ensures |r| == |values|
  {
    seq(|values|, i requires 0 <= i < |values| =>
      var seen := Present(Window(values, i, width));
      if |seen| >= minPeriods then Some(Average(seen)) else None)
  }

  /** rolling(width, min_periods).std() */
  function RollingStd(values: seq<Option<real>>, width: nat, minPeriods: nat, root: real -> real)
    : (r: seq<Option<real>>)
    requires minPeriods >= 2
    ensures |r| == |values|
  {
    seq(|values|, i requires 0 <= i < |values| =>
      var seen := Present(Window(values, i, width));
      if |seen| >= minPeriods then Some(Deviation(seen, root)) else None)
  }

  function FillNa(value: Option<real>, filler: real): real {
    if value.Some? then value.value else filler
  }

  function Observed(values: seq<real>): (r: seq<Option<real>>)
    ensures |r| == |values|
    ensures forall i :: 0 <= i < |r| ==> r[i] == Some(values[i])
  {
    seq(|values|, i requires 0 <= i < |values| => Some(values[i]))
  }

  // ----- groupby(product): what a row sees of its own product ------------------------------------

  /** The quantities of product p among the rows of a frame, in frame order. */
  function Group(frame: seq<Row>, p: ProductId): seq<real> {
    if frame == [] then []
    else (if frame[0].product == p then [frame[0].quantity] else []) + Group(frame[1..], p)
  }

  lemma {:induction false} GroupConcat(a: seq<Row>, b: seq<Row>, p: ProductId)
    ensures Group(a + b, p) == Group(a, p) + Group(b, p)
  {
    if a == [] {
      assert a + b == b;
    } else {
      var head := if a[0].product == p then [a[0].quantity] else [];
      assert (a + b)[0] == a[0] && (a + b)[1..] == a[1..] + b;
      GroupConcat(a[1..], b, p);
      assert Group(a, p) == head + Group(a[1..], p);
      assert Group(a + b, p) == head + (Group(a[1..], p) + Group(b, p));
    }
  }

  /** Row i of a frame is entry |Group(frame[..i], p)| of its own product's group. */
  lemma RowInGroup(frame: seq<Row>, i: nat)
    requires i < |frame|
    ensures var p := frame[i].product;
      var rank := |Group(frame[..i], p)|;
      && rank < |Group(frame, p)|
      && Group(frame, p)[rank] == frame[i].quantity
      && Group(frame, p)[..rank] == Group(frame[..i], p)
  {
    var p := frame[i].product;
    assert frame == frame[..i] + ([frame[i]] + frame[i + 1..]);
    GroupConcat(frame[..i], [frame[i]] + frame[i + 1..], p);
    assert ([frame[i]] + frame[i + 1..])[1..] == frame[i + 1..];
  }

  /** The quantities of a row's own product that come before it. */
  function HistoryOf(frame: seq<Row>, i: nat): seq<real>
    requires i < |frame|
  {
    Group(frame[..i], frame[i].product)
  }

  // ----- batch equals serving ---------------------------------------------------------------------

  lemma {:induction false} PresentOfObserved(values: seq<Option<real>>, observed: seq<real>)
    requires |values| == |observed| && forall i :: 0 <= i < |values| ==> values[i] == Some(observed[i])
    ensures Present(values) == observed
  {
    if values != [] {
      PresentOfObserved(values[1..], observed[1..]);
      assert observed == [observed[0]] + observed[1..];
    }
  }

  lemma PresentAfterGap(window: seq<Option<real>>)
    requires window != [] && window[0] == None
    ensures Present(window) == Present(window[1..])
  {
  }

  /** A window over the column shifted by one sees exactly the last `width` earlier values. */
  lemma ShiftedWindow(group: seq<real>, i: nat, width: nat)
    requires i < |group| && width >= 1
    ensures Present(Window(Shift(Observed(group), 1), i, width)) == Last(group[..i], width)
  {
    var shifted := Shift(Observed(group), 1);
    var window := Window(shifted, i, width);
    var recent := Last(group[..i], width);
    if i + 1 <= width {
      assert window == shifted[..i + 1] && recent == group[..i];
      PresentAfterGap(window);
      PresentOfObserved(window[1..], recent);
    } else {
      PresentOfObserved(window, recent);
    }
  }

  datatype HistoryColumn = Lag1 | Lag7 | RollingMean7 | RollingMean14 | RollingStd7

  /** One history column of one product's group, before missing values are filled. */
  function GroupColumn(column: HistoryColumn, group: seq<real>, root: real -> real): (r: seq<Option<real>>)
    ensures |r| == |group|
  {
    var shifted := Shift(Observed(group), 1);
    match column
    case Lag1 => shifted
    case Lag7 => Shift(Observed(group), 7)
    case RollingMean7 => RollingMean(shifted, 7, 1)
    case RollingMean14 => RollingMean(shifted, 14, 1)
    case RollingStd7 => RollingStd(shifted, 7, 2, root)
  }

  /** groupby("product_id").transform: each row takes its own entry of its own group's column. */
  function Transformed(column: HistoryColumn, frame: seq<Row>, root: real -> real): (r: seq<Option<real>>)
    ensures |r| == |frame|
  {
    seq(|frame|, i requires 0 <= i < |frame| =>
      RowInGroup(frame, i);
      GroupColumn(column, Group(frame, frame[i].product), root)[|HistoryOf(frame, i)|])
  }

  function Served(column: HistoryColumn, history: seq<real>, root: real -> real): real {
    match column
    case Lag1 => if history == [] then 0.0 else history[|history| - 1]
    case Lag7 => if |history| >= 7 then history[|history| - 7] else 0.0
    case RollingMean7 => MeanOrZero(Last(history, 7))
    case RollingMean14 => MeanOrZero(Last(history, 14))
    case RollingStd7 => DeviationOrZero(Last(history, 7), root)
  }

  /** Within one group: the filled batch column at rank i is what serving computes from the first i values. */
  lemma GroupColumnServes(column: HistoryColumn, group: seq<real>, i: nat, root: real -> real)
    requires i < |group|
    ensures FillNa(GroupColumn(column, group, root)[i], 0.0) == Served(column, group[..i], root)
  {
    ShiftedWindow(group, i, 7);
    ShiftedWindow(group, i, 14);
  }

  /**
    Batch and serving agree at every row of every frame, for every history column: the grouped
    shift, rolling and fill of the whole frame equals the one-row computation on the quantities
    of the row's own product that precede it. No other product's rows matter.
    */
  lemma BatchEqualsServing(column: HistoryColumn, frame: seq<Row>, i: nat, root: real -> real)
    requires i < |frame|
    ensures FillNa(Transformed(column, frame, root)[i], 0.0) == Served(column, HistoryOf(frame, i), root)
  {
    RowInGroup(frame, i);
    GroupColumnServes(column, Group(frame, frame[i].product), |HistoryOf(frame, i)|, root);
  }

  // ----- sort_values(["product_id", "sale_date"]) -------------------------------------------------

  predicate RowLeq(a: Row, b: Row) {
    a.product < b.product || (a.product == b.product && a.day <= b.day)
  }

  predicate SortedRows(frame: seq<Row>) {
    forall i, j :: 0 <= i < j < |frame| ==> RowLeq(frame[i], frame[j])
  }

  function InsertRow(row: Row, frame: seq<Row>): seq<Row> {
    if frame == [] || RowLeq(row, frame[0]) then [row] + frame else [frame[0]] + InsertRow(row, frame[1..])
  }

  function SortRows(frame: seq<Row>): seq<Row> {
    if frame == [] then [] else InsertRow(frame[0], SortRows(frame[1..]))
  }

  lemma {:induction false} InsertRowKeeps(row: Row, frame: seq<Row>)
    ensures multiset(InsertRow(row, frame)) == multiset([row]) + multiset(frame)
    ensures forall r :: r in InsertRow(row, frame) ==> r == row || r in frame
  {
    if frame == [] || RowLeq(row, frame[0]) {
    } else {
      InsertRowKeeps(row, frame[1..]);
      assert frame == [frame[0]] + frame[1..];
    }
  }

  lemma {:induction false} InsertRowSorted(row: Row, frame: seq<Row>)
    requires SortedRows(frame)
    ensures SortedRows(InsertRow(row, frame))
  {
    if frame == [] || RowLeq(row, frame[0]) {
    } else {
      var rest := InsertRow(row, frame[1..]);
      InsertRowSorted(row, frame[1..]);
      InsertRowKeeps(row, frame[1..]);
      forall k | 0 <= k < |rest| ensures RowLeq(frame[0], rest[k]) {
        assert rest[k] in rest;
        if rest[k] != row {
          var j :| 0 <= j < |frame[1..]| && frame[1..][j] == rest[k];
        }
      }
    }
  }

  lemma {:induction false} SortRowsSorts(frame: seq<Row>)
    ensures SortedRows(SortRows(frame)) && multiset(SortRows(frame)) == multiset(frame)
  {
    if frame != [] {
      SortRowsSorts(frame[1..]);
      InsertRowSorted(frame[0], SortRows(frame[1..]));
      InsertRowKeeps(frame[0], SortRows(frame[1..]));
      assert frame == [frame[0]] + frame[1..];
    }
  }

  lemma {:induction false} SortRowsKeepsSorted(frame: seq<Row>)
    requires SortedRows(frame)
    ensures SortRows(frame) == frame
  {
    if frame != [] {
      SortRowsKeepsSorted(frame[1..]);
      assert SortRows(frame) == InsertRow(frame[0], frame[1..]);
    }
  }

  // ----- the frame, built column by column ----------------------------------------------------------

  function FillAll(values: seq<Option<real>>): (r: seq<Option<real>>)
    ensures |r| == |values| && forall i :: 0 <= i < |r| ==> r[i] == Some(FillNa(values[i], 0.0))
  {
    seq(|values|, i requires 0 <= i < |values| => Some(FillNa(values[i], 0.0)))
  }

  /** A finished column: every row holds what serving computes from the row's history. */
  ghost predicate ServesRows(column: HistoryColumn, values: seq<Option<real>>, frame: seq<Row>, root: real -> real) {
    |values| == |frame|
    && forall i :: 0 <= i < |frame| ==> values[i] == Some(Served(column, HistoryOf(frame, i), root))
  }

  lemma FilledColumnServes(column: HistoryColumn, frame: seq<Row>, root: real -> real)
    ensures ServesRows(column, FillAll(Transformed(column, frame, root)), frame, root)
  {
    forall i | 0 <= i < |frame|
      ensures FillNa(Transformed(column, frame, root)[i], 0.0) == Served(column, HistoryOf(frame, i), root)
    {
      BatchEqualsServing(column, frame, i, root);
    }
  }

  const HISTORY_COLUMNS := [Lag1, Lag7, RollingMean7, RollingMean14, RollingStd7]

  function GroupedColumns(frame: seq<Row>, root: real -> real): map<HistoryColumn, seq<Option<real>>> {
    map[
      Lag1 := Transformed(Lag1, frame, root),
      Lag7 := Transformed(Lag7, frame, root),
      RollingMean7 := Transformed(RollingMean7, frame, root),
      RollingMean14 := Transformed(RollingMean14, frame, root),
      RollingStd7 := Transformed(RollingStd7, frame, root)]
  }

  /** The loop over the history columns that replaces what is missing by zero. */
  method FillColumns(columns: map<HistoryColumn, seq<Option<real>>>, names: seq<HistoryColumn>)
    returns (filled: map<HistoryColumn, seq<Option<real>>>)
    requires Distinct(names) && forall c :: c in names ==> c in columns
    ensures filled.Keys == columns.Keys
    ensures forall c :: c in columns ==> filled[c] == if c in names then FillAll(columns[c]) else columns[c]
  {
    filled := columns;
    for done := 0 to |names|
      invariant filled.Keys == columns.Keys
      invariant forall c :: c in columns ==>
        filled[c] == if c in names[..done] then FillAll(columns[c]) else columns[c]
    {
      var c := names[done];
      assert c in names && c !in names[..done];
      filled := filled[c := FillAll(filled[c])];
      assert names[..done + 1] == names[..done] + [c];
    }
    assert names[..|names|] == names;
  }

  /** The five filled columns of a frame serve. */
  lemma FilledColumnsServe(columns: map<HistoryColumn, seq<Option<real>>>, frame: seq<Row>, root: real -> real)
    requires columns.Keys == GroupedColumns(frame, root).Keys
    requires forall c :: c in columns ==> columns[c] == FillAll(GroupedColumns(frame, root)[c])
    ensures columns.Keys == {Lag1, Lag7, RollingMean7, RollingMean14, RollingStd7}
    ensures forall c :: c in columns ==> ServesRows(c, columns[c], frame, root)
  {
    forall c | c in columns ensures ServesRows(c, columns[c], frame, root) {
      FilledColumnServes(c, frame, root);
    }
  }

  class FeatureFrame {
    var rows: seq<Row>
    var codes: seq<int>
    var weekdays: seq<int>
    var daysOfMonth: seq<int>
    var months: seq<int>
    var weekends: seq<int>
    var columns: map<HistoryColumn, seq<Option<real>>>

    predicate Complete()
      reads this
    {
      && |codes| == |weekdays| == |daysOfMonth| == |months| == |weekends| == |rows|
      && HasColumns()
    }

    predicate HasColumns()
      reads this
    {
      && Lag1 in columns && |columns[Lag1]| == |rows|
      && Lag7 in columns && |columns[Lag7]| == |rows|
      && RollingMean7 in columns && |columns[RollingMean7]| == |rows|
      && RollingMean14 in columns && |columns[RollingMean14]| == |rows|
      && RollingStd7 in columns && |columns[RollingStd7]| == |rows|
    }

    function FeaturesAt(i: nat): FeatureRow
      requires Complete() && i < |rows|
      reads this
    {
      FeatureRow(
        codes[i], weekdays[i], daysOfMonth[i], months[i], weekends[i],
        FillNa(columns[Lag1][i], 0.0),
        FillNa(columns[Lag7][i], 0.0),
        FillNa(columns[RollingMean7][i], 0.0),
        FillNa(columns[RollingMean14][i], 0.0),
        FillNa(columns[RollingStd7][i], 0.0))
    }

    /**
      build_feature_frame. Every row of the sorted frame ends up with exactly the features that
      serving would compute for that day from the product's earlier quantities. (Codes and
      calendar columns are read row by row, so it does not matter that the sort comes first.)
      */
    constructor (daily: seq<Row>, productIds: seq<ProductId>, lib: Library)
      ensures Complete() && rows == SortRows(daily)
      ensures forall i :: 0 <= i < |rows| ==>
        FeaturesAt(i)
        == FutureFeatureRow(lib, ProductCode(productIds, rows[i].product), rows[i].day, HistoryOf(rows, i))
    {
      rows := SortRows(daily);
      codes, weekdays, daysOfMonth, months, weekends := [], [], [], [], [];
      columns := map[];
      new;
      AddCodesAndCalendar(productIds, lib);
      AddHistoryFeatures(lib.root);
      assert Lag1 in columns && Lag7 in columns && RollingMean7 in columns && RollingMean14 in columns
          && RollingStd7 in columns;
    }

    method AddCodesAndCalendar(productIds: seq<ProductId>, lib: Library)
      modifies this
      ensures rows == old(rows) && columns == old(columns)
      ensures |codes| == |weekdays| == |daysOfMonth| == |months| == |weekends| == |rows|
      ensures forall i :: 0 <= i < |rows| ==>
        && codes[i] == ProductCode(productIds, rows[i].product)
        && weekdays[i] == lib.dayOfWeek(rows[i].day)
        && daysOfMonth[i] == lib.dayOfMonth(rows[i].day)
        && months[i] == lib.month(rows[i].day)
        && weekends[i] == if lib.dayOfWeek(rows[i].day) >= 5 then 1 else 0
    {
      var frame := rows;
      codes := seq(|frame|, i requires 0 <= i < |frame| => ProductCode(productIds, frame[i].product));
      weekdays := seq(|frame|, i requires 0 <= i < |frame| => lib.dayOfWeek(frame[i].day));
      daysOfMonth := seq(|frame|, i requires 0 <= i < |frame| => lib.dayOfMonth(frame[i].day));
      months := seq(|frame|, i requires 0 <= i < |frame| => lib.month(frame[i].day));
      var read := weekdays;
      weekends := seq(|frame|, i requires 0 <= i < |frame| => if read[i] >= 5 then 1 else 0);
    }

    /** Assign the five columns, then replace what is missing in each of them by zero. */
    method AddHistoryFeatures(root: real -> real)
      modifies this`columns
      ensures columns.Keys == {Lag1, Lag7, RollingMean7, RollingMean14, RollingStd7}
      ensures forall c :: c in columns ==> ServesRows(c, columns[c], rows, root)
    {
      var grouped := GroupedColumns(rows, root);
      columns := FillColumns(grouped, HISTORY_COLUMNS);
      FilledColumnsServe(columns, rows, root);
    }
  }
}
