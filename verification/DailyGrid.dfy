/** From sales records to the dense grid of one row per product and day. */
module DailyGrid {
  import opened Wrappers
  import opened ForecastTables
  import opened Features

  /** A stored transaction; quantities count thousandths. */
  datatype Record = Record(product: ProductId, day: Option<Day>, quantity: Option<int>)

  datatype Sale = Sale(product: ProductId, day: Day, quantity: int)

  predicate Usable(record: Record) {
    record.day.Some? && record.quantity.Some? && record.quantity.value > 0
  }

  function CleanSales(records: seq<Record>): seq<Sale> {
    if records == [] then []
    else
      var last := records[|records| - 1];
      CleanSales(records[..|records| - 1])
      + if Usable(last) then [Sale(last.product, last.day.value, last.quantity.value)] else []
  }

  /** sales_records_from_objects: skip rows without date, without quantity, or not positive. */
  method SalesRecordsFromObjects(records: seq<Record>) returns (clean: seq<Sale>)
    ensures clean == CleanSales(records)
  {
    clean := [];
    for i := 0 to |records|
      invariant clean == CleanSales(records[..i])
    {
      var record := records[i];
      assert records[..i + 1][..i] == records[..i];
      if record.day.None? || record.quantity.None? {
        continue;
      }
      if record.quantity.value <= 0 {
        continue;
      }
      clean := clean + [Sale(record.product, record.day.value, record.quantity.value)];
    }
    assert records[..|records|] == records;
  }

  /** What is left is positive, and nothing usable was lost. */
  lemma {:induction false} CleanSalesExact(records: seq<Record>)
    ensures forall s :: s in CleanSales(records) ==>
      s.quantity > 0 && Record(s.product, Some(s.day), Some(s.quantity)) in records
    ensures forall r :: r in records && Usable(r) ==>
      Sale(r.product, r.day.value, r.quantity.value) in CleanSales(records)
  {
    if records != [] {
      CleanSalesExact(records[..|records| - 1]);
      assert records == records[..|records| - 1] + [records[|records| - 1]];
    }
  }

  // ----- aggregate_daily_sales ---------------------------------------------------------------------

  /** Sales of products that are not active are dropped. */
  function Relevant(sales: seq<Sale>, products: seq<ProductId>): seq<Sale> {
    if sales == [] then []
    else (if sales[0].product in products && sales[0].quantity > 0 then [sales[0]] else [])
         + Relevant(sales[1..], products)
  }

  function Units(sale: Sale): real {
    sale.quantity as real / 1000.0
  }

  /** groupby(["product_id", "sale_date"]).sum() */
  function GroupSums(sales: seq<Sale>): map<Key, real> {
    if sales == [] then map[]
    else
      var rest := GroupSums(sales[1..]);
      var key := Key(sales[0].product, sales[0].day);
      rest[key := Units(sales[0]) + if key in rest then rest[key] else 0.0]
  }

  function FirstDay(sales: seq<Sale>): Day
    requires sales != []
  {
    if |sales| == 1 || sales[0].day <= FirstDay(sales[1..]) then sales[0].day else FirstDay(sales[1..])
  }

  function LastDay(sales: seq<Sale>): Day
    requires sales != []
  {
    if |sales| == 1 || sales[0].day >= LastDay(sales[1..]) then sales[0].day else LastDay(sales[1..])
  }

  /** One product's slice of the left join of the date range with the sums, zero where nothing matched. */
  function ProductRows(sums: map<Key, real>, p: ProductId, start: Day, days: nat): (r: seq<Row>)
    ensures |r| == days
    ensures forall i :: 0 <= i < days ==> r[i] == Row(p, start + i, FillNa(Lookup(sums, Key(p, start + i)), 0.0))
  {
    seq(days, i requires 0 <= i < days => Row(p, start + i, FillNa(Lookup(sums, Key(p, start + i)), 0.0)))
  }

  function CrossJoin(sums: map<Key, real>, products: seq<ProductId>, start: Day, days: nat): seq<Row> {
    if products == [] then []
    else ProductRows(sums, products[0], start, days) + CrossJoin(sums, products[1..], start, days)
  }

  /** The span of the grid: first to last relevant sale, or the single day `today` without sales. */
  function Start(sales: seq<Sale>, today: Day): Day {
    if sales == [] then today else FirstDay(sales)
  }

  function Days(sales: seq<Sale>): (n: nat)
    ensures n >= 1
  {
    if sales == [] then 1
    else
      DaySpan(sales);
      LastDay(sales) - FirstDay(sales) + 1
  }

  function AggregateDailySales(products: seq<ProductId>, sales: seq<Sale>, today: Day): seq<Row> {
    var kept := Relevant(sales, products);
    SortRows(CrossJoin(GroupSums(kept), products, Start(kept, today), Days(kept)))
  }

  lemma {:induction false} DaySpan(sales: seq<Sale>)
    requires sales != []
    ensures forall s :: s in sales ==> FirstDay(sales) <= s.day <= LastDay(sales)
    ensures exists s :: s in sales && s.day == FirstDay(sales)
    ensures exists s :: s in sales && s.day == LastDay(sales)
  {
    assert sales[0] in sales;
    if |sales| > 1 {
      DaySpan(sales[1..]);
      assert forall s :: s in sales <==> s == sales[0] || s in sales[1..];
    }
  }

  /** The span of the grid: from the first to the last relevant sale, both included, or today alone. */
  lemma SpanExact(kept: seq<Sale>, today: Day)
    ensures kept == [] ==> Start(kept, today) == today && Days(kept) == 1
    ensures kept != [] ==>
      && (forall s :: s in kept ==> Start(kept, today) <= s.day < Start(kept, today) + Days(kept))
      && (exists s :: s in kept && s.day == Start(kept, today))
      && (exists s :: s in kept && s.day == Start(kept, today) + Days(kept) - 1)
  {
    if kept != [] { DaySpan(kept); }
  }

  /** Quantities enter the frame in units: a thousand thousandths are one. */
  lemma UnitsExact(sale: Sale)
    ensures Units(sale) * 1000.0 == sale.quantity as real
  {
  }

  // ----- sums over sales ------------------------------------------------------------------------------

  ghost function SumOf(sales: seq<Sale>, share: Sale -> real): real {
    if sales == [] then 0.0 else share(sales[0]) + SumOf(sales[1..], share)
  }

  function OnDay(p: ProductId, d: Day): Sale -> real {
    (s: Sale) => if s.product == p && s.day == d then Units(s) else 0.0
  }

  function OfProduct(p: ProductId): Sale -> real {
    (s: Sale) => if s.product == p then Units(s) else 0.0
  }

  lemma {:induction false} SumOfConcat(a: seq<Sale>, b: seq<Sale>, share: Sale -> real)
    ensures SumOf(a + b, share) == SumOf(a, share) + SumOf(b, share)
  {
    if a == [] {
      assert a + b == b;
    } else {
      SumOfConcat(a[1..], b, share);
      assert (a + b)[1..] == a[1..] + b;
    }
  }

  lemma RemoveAt(b: seq<Sale>, i: nat)
    requires i < |b|
    ensures multiset(b[..i] + b[i + 1..]) == multiset(b) - multiset{b[i]}
  {
    assert b == b[..i] + [b[i]] + b[i + 1..];
    assert multiset(b) == multiset(b[..i]) + multiset{b[i]} + multiset(b[i + 1..]);
  }

  lemma SumOfRemoved(b: seq<Sale>, i: nat, share: Sale -> real)
    requires i < |b|
    ensures SumOf(b, share) == share(b[i]) + SumOf(b[..i] + b[i + 1..], share)
  {
    var tail := [b[i]] + b[i + 1..];
    assert b == b[..i] + tail && tail[1..] == b[i + 1..];
    SumOfConcat(b[..i], b[i + 1..], share);
    SumOfConcat(b[..i], tail, share);
  }

  lemma MatchRemoved(a: seq<Sale>, b: seq<Sale>, i: nat)
    requires a != [] && multiset(a) == multiset(b) && i < |b| && b[i] == a[0]
    ensures multiset(a[1..]) == multiset(b[..i] + b[i + 1..])
  {
    RemoveAt(b, i);
    RemoveAt(a, 0);
    assert a[..0] + a[1..] == a[1..];
  }

  /** A sum does not depend on the order of the records. */
  lemma {:induction false} SumOfPermuted(a: seq<Sale>, b: seq<Sale>, share: Sale -> real)
    requires multiset(a) == multiset(b)
    ensures SumOf(a, share) == SumOf(b, share)
    decreases |a|
  {
    if a == [] {
      assert |b| == |multiset(b)| == |multiset(a)| == 0;
    } else {
      assert a[0] in multiset(b);
      var i :| 0 <= i < |b| && b[i] == a[0];
      MatchRemoved(a, b, i);
      SumOfPermuted(a[1..], b[..i] + b[i + 1..], share);
      SumOfRemoved(b, i, share);
    }
  }

  /** The grouped sums hold, for every key, the total of the sales with that key. */
  lemma {:induction false} GroupSumsExact(sales: seq<Sale>, p: ProductId, d: Day)
    ensures FillNa(Lookup(GroupSums(sales), Key(p, d)), 0.0) == SumOf(sales, OnDay(p, d))
  {
    if sales != [] {
      GroupSumsExact(sales[1..], p, d);
    }
  }

  /** Summed over a span of days that covers all sales, the daily totals are the product's total. */
  lemma {:induction false} DaysPartitionSales(sales: seq<Sale>, p: ProductId, start: Day, totals: seq<real>)
    requires forall s :: s in sales ==> start <= s.day < start + |totals|
    requires forall i :: 0 <= i < |totals| ==> totals[i] == SumOf(sales, OnDay(p, start + i))
    ensures Sum(totals) == SumOf(sales, OfProduct(p))
  {
    if sales == [] {
      SumOfZeros(totals);
    } else {
      var head, tail := sales[0], sales[1..];
      var heads := seq(|totals|, i requires 0 <= i < |totals| => OnDay(p, start + i)(head));
      var tails := seq(|totals|, i requires 0 <= i < |totals| => SumOf(tail, OnDay(p, start + i)));
      assert head in sales && forall s :: s in tail ==> s in sales;
      DaysPartitionSales(tail, p, start, tails);
      SumOfSums(totals, heads, tails);
      SumOfOneDay(heads, head.day - start, OfProduct(p)(head));
    }
  }

  lemma {:induction false} SumOfZeros(s: seq<real>)
    requires forall i :: 0 <= i < |s| ==> s[i] == 0.0
    ensures Sum(s) == 0.0
  {
    if s != [] { SumOfZeros(s[1..]); }
  }

  lemma {:induction false} SumOfSums(c: seq<real>, a: seq<real>, b: seq<real>)
    requires |a| == |b| == |c| && forall i :: 0 <= i < |c| ==> c[i] == a[i] + b[i]
    ensures Sum(c) == Sum(a) + Sum(b)
  {
    if c != [] { SumOfSums(c[1..], a[1..], b[1..]); }
  }

  lemma {:induction false} SumOfOneDay(s: seq<real>, i: nat, x: real)
    requires i < |s| && s[i] == x && forall k :: 0 <= k < |s| && k != i ==> s[k] == 0.0
    ensures Sum(s) == x
  {
    if i == 0 {
      SumOfZeros(s[1..]);
    } else {
      SumOfOneDay(s[1..], i - 1, x);
    }
  }

  // ----- sorting keeps each product's own rows in order --------------------------------------------------

  function RowsOfProduct(frame: seq<Row>, p: ProductId): seq<Row> {
    if frame == [] then []
    else OneOfProduct(frame[0], p) + RowsOfProduct(frame[1..], p)
  }

  function OneOfProduct(row: Row, p: ProductId): seq<Row> {
    if row.product == p then [row] else []
  }

  lemma RowsOfProductCons(row: Row, frame: seq<Row>, p: ProductId)
    ensures RowsOfProduct([row] + frame, p) == OneOfProduct(row, p) + RowsOfProduct(frame, p)
  {
    assert ([row] + frame)[1..] == frame;
  }

  lemma {:induction false} RowsOfProductOnly(frame: seq<Row>, p: ProductId)
    ensures forall r :: r in RowsOfProduct(frame, p) ==> r in frame && r.product == p
  {
    if frame != [] { RowsOfProductOnly(frame[1..], p); }
  }

  lemma NoRowsOfProduct(p: ProductId)
    ensures RowsOfProduct([], p) == []
  {
  }

  lemma {:induction false} RowsOfProductConcat(a: seq<Row>, b: seq<Row>, p: ProductId)
    ensures RowsOfProduct(a + b, p) == RowsOfProduct(a, p) + RowsOfProduct(b, p)
  {
    hide RowsOfProduct, OneOfProduct;
    if a == [] {
      NoRowsOfProduct(p);
      assert a + b == b;
    } else {
      RowsOfProductConcat(a[1..], b, p);
      RowsOfProductCons(a[0], a[1..] + b, p);
      RowsOfProductCons(a[0], a[1..], p);
      assert a + b == [a[0]] + (a[1..] + b) && a == [a[0]] + a[1..];
    }
  }

  lemma InsertCons(row: Row, first: Row, frame: seq<Row>)
    ensures InsertRow(row, [first] + frame)
         == if RowLeq(row, first) then [row] + ([first] + frame) else [first] + InsertRow(row, frame)
  {
    assert ([first] + frame)[1..] == frame;
  }

  lemma {:induction false} InsertIntoProduct(row: Row, frame: seq<Row>, p: ProductId)
    requires SortedRows(frame)
    ensures RowsOfProduct(InsertRow(row, frame), p)
         == if row.product == p then InsertRow(row, RowsOfProduct(frame, p)) else RowsOfProduct(frame, p)
  {
    var own := RowsOfProduct(frame, p);
    if frame == [] || RowLeq(row, frame[0]) {
      RowsOfProductCons(row, frame, p);
      RowsOfProductOnly(frame, p);
      if own != [] {
        assert own[0] in own && own[0] in frame;
        assert RowLeq(row, own[0]);
      }
    } else {
      var first, rest := frame[0], frame[1..];
      InsertIntoProduct(row, rest, p);
      RowsOfProductCons(first, InsertRow(row, rest), p);
      if first.product == p {
        InsertCons(row, first, RowsOfProduct(rest, p));
      } else {
        assert own == RowsOfProduct(rest, p);
        assert [] + RowsOfProduct(InsertRow(row, rest), p) == RowsOfProduct(InsertRow(row, rest), p);
      }
    }
  }

  lemma {:induction false} SortKeepsProductRows(frame: seq<Row>, p: ProductId)
    ensures RowsOfProduct(SortRows(frame), p) == SortRows(RowsOfProduct(frame, p))
  {
    if frame != [] {
      var row, own := frame[0], RowsOfProduct(frame[1..], p);
      SortRowsSorts(frame[1..]);
      InsertIntoProduct(row, SortRows(frame[1..]), p);
      SortKeepsProductRows(frame[1..], p);
      if row.product == p {
        SortCons(row, own);
      } else {
        assert RowsOfProduct(frame, p) == own;
      }
    }
  }

  lemma SortCons(row: Row, frame: seq<Row>)
    ensures SortRows([row] + frame) == InsertRow(row, SortRows(frame))
  {
    assert ([row] + frame)[1..] == frame;
  }

  lemma {:induction false} CrossJoinOfProduct(
    sums: map<Key, real>, products: seq<ProductId>, start: Day, days: nat, p: ProductId)
    requires Distinct(products)
    ensures RowsOfProduct(CrossJoin(sums, products, start, days), p)
         == if p in products then ProductRows(sums, p, start, days) else []
  {
    if products != [] {
      var first, rest := ProductRows(sums, products[0], start, days), CrossJoin(sums, products[1..], start, days);
      RowsOfProductConcat(first, rest, p);
      CrossJoinOfProduct(sums, products[1..], start, days, p);
      SingleProduct(first, products[0], p);
      assert p in products <==> p == products[0] || p in products[1..];
    }
  }

  lemma {:induction false} SingleProduct(rows: seq<Row>, q: ProductId, p: ProductId)
    requires forall r :: r in rows ==> r.product == q
    ensures RowsOfProduct(rows, p) == if p == q then rows else []
  {
    if rows != [] {
      assert rows[0] in rows;
      SingleProduct(rows[1..], q, p);
    }
  }

  // ----- what the grid holds -------------------------------------------------------------------------------

  /** One product's rows, straight from the sales: its total for each day of the span. */
  ghost function TotalsRows(kept: seq<Sale>, p: ProductId, start: Day, days: nat): (r: seq<Row>)
    ensures |r| == days
    ensures forall i :: 0 <= i < days ==> r[i] == Row(p, start + i, SumOf(kept, OnDay(p, start + i)))
  {
    seq(days, i requires 0 <= i < days => Row(p, start + i, SumOf(kept, OnDay(p, start + i))))
  }

  lemma ProductRowsAreTotals(kept: seq<Sale>, p: ProductId, start: Day, days: nat)
    ensures ProductRows(GroupSums(kept), p, start, days) == TotalsRows(kept, p, start, days)
  {
    forall d: Day ensures FillNa(Lookup(GroupSums(kept), Key(p, d)), 0.0) == SumOf(kept, OnDay(p, d)) {
      GroupSumsExact(kept, p, d);
    }
  }

  /**
    In the grid, every active product has exactly one row for every day of the span, in date
    order, and the row's quantity is the day's total sales of the product. Other products have none.
    */
  lemma GridRowsExact(products: seq<ProductId>, sales: seq<Sale>, today: Day, p: ProductId)
    requires Distinct(products)
    ensures var kept := Relevant(sales, products);
      RowsOfProduct(AggregateDailySales(products, sales, today), p)
      == if p in products then TotalsRows(kept, p, Start(kept, today), Days(kept)) else []
  {
    var kept := Relevant(sales, products);
    var start, days := Start(kept, today), Days(kept);
    SortKeepsProductRows(CrossJoin(GroupSums(kept), products, start, days), p);
    CrossJoinOfProduct(GroupSums(kept), products, start, days, p);
    ProductRowsAreTotals(kept, p, start, days);
    SortRowsKeepsSorted(TotalsRows(kept, p, start, days));
    SortRowsKeepsSorted([]);
  }

  lemma {:induction false} GroupIsQuantities(frame: seq<Row>, p: ProductId)
    ensures |Group(frame, p)| == |RowsOfProduct(frame, p)|
    ensures forall i :: 0 <= i < |Group(frame, p)| ==> Group(frame, p)[i] == RowsOfProduct(frame, p)[i].quantity
  {
    if frame != [] { GroupIsQuantities(frame[1..], p); }
  }

  lemma {:induction false} RelevantOfProduct(sales: seq<Sale>, products: seq<ProductId>, p: ProductId)
    requires p in products && forall i :: 0 <= i < |sales| ==> sales[i].quantity > 0
    ensures SumOf(Relevant(sales, products), OfProduct(p)) == SumOf(sales, OfProduct(p))
  {
    if sales != [] {
      RelevantOfProduct(sales[1..], products, p);
      SumOfConcat(
        if sales[0].product in products then [sales[0]] else [], Relevant(sales[1..], products), OfProduct(p));
    }
  }

  /** The history of an active product: its daily totals over the span, none negative. */
  lemma HistoryOfProduct(products: seq<ProductId>, sales: seq<Sale>, today: Day, p: ProductId)
    requires Distinct(products) && p in products
    ensures var kept := Relevant(sales, products);
      var history := Group(AggregateDailySales(products, sales, today), p);
      && |history| == Days(kept)
      && forall i :: 0 <= i < |history| ==>
           history[i] == SumOf(kept, OnDay(p, Start(kept, today) + i)) && history[i] >= 0.0
  {
    var kept := Relevant(sales, products);
    GridRowsExact(products, sales, today, p);
    GroupIsQuantities(AggregateDailySales(products, sales, today), p);
    RelevantPositive(sales, products);
    forall d: Day { SumOfNonNegative(kept, OnDay(p, d)); }
  }

  /**
    The grid conserves sales: the quantities of an active product in the grid add up to the
    product's positive records, and all products have histories of the same length.
    */
  lemma GridConservesSales(products: seq<ProductId>, records: seq<Record>, today: Day, p: ProductId)
    requires Distinct(products) && p in products
    ensures var sales := CleanSales(records);
      var history := Group(AggregateDailySales(products, sales, today), p);
      && Sum(history) == SumOf(sales, OfProduct(p))
      && |history| == Days(Relevant(sales, products))
  {
    var sales := CleanSales(records);
    var kept := Relevant(sales, products);
    var history := Group(AggregateDailySales(products, sales, today), p);
    HistoryOfProduct(products, sales, today, p);
    CleanSalesExact(records);
    RelevantOfProduct(sales, products, p);
    if kept != [] { DaySpan(kept); }
    DaysPartitionSales(kept, p, Start(kept, today), history);
  }

  lemma {:induction false} RelevantPositive(sales: seq<Sale>, products: seq<ProductId>)
    ensures forall s :: s in Relevant(sales, products) ==> s.quantity > 0 && s in sales
  {
    if sales != [] { RelevantPositive(sales[1..], products); }
  }

  lemma {:induction false} SumOfNonNegative(sales: seq<Sale>, share: Sale -> real)
    requires forall s :: s in sales ==> share(s) >= 0.0
    ensures SumOf(sales, share) >= 0.0
  {
    if sales != [] {
      assert sales[0] in sales;
      SumOfNonNegative(sales[1..], share);
    }
  }

  // ----- record order does not matter -------------------------------------------------------------------------

  lemma {:induction false} RelevantCount(sales: seq<Sale>, products: seq<ProductId>, s: Sale)
    ensures multiset(Relevant(sales, products))[s]
         == if s.product in products && s.quantity > 0 then multiset(sales)[s] else 0
  {
    if sales != [] {
      RelevantCount(sales[1..], products, s);
      assert sales == [sales[0]] + sales[1..];
    }
  }

  lemma SpanOfPermuted(a: seq<Sale>, b: seq<Sale>)
    requires multiset(a) == multiset(b) && a != []
    ensures b != [] && FirstDay(a) == FirstDay(b) && LastDay(a) == LastDay(b)
  {
    assert a[0] in multiset(b);
    DaySpan(a);
    DaySpan(b);
    assert forall s :: s in a <==> s in multiset(a);
    assert forall s :: s in b <==> s in multiset(b);
  }

  /** Two orders of the same sales give the same rows, for every product. */
  lemma GridIgnoresRecordOrder(products: seq<ProductId>, a: seq<Sale>, b: seq<Sale>, today: Day, p: ProductId)
    requires Distinct(products) && multiset(a) == multiset(b)
    ensures RowsOfProduct(AggregateDailySales(products, a, today), p)
         == RowsOfProduct(AggregateDailySales(products, b, today), p)
  {
    var x, y := Relevant(a, products), Relevant(b, products);
    forall s ensures multiset(x)[s] == multiset(y)[s] {
      RelevantCount(a, products, s);
      RelevantCount(b, products, s);
    }
    assert multiset(x) == multiset(y);
    assert |x| == |multiset(x)| == |multiset(y)| == |y|;
    if x != [] { SpanOfPermuted(x, y); }
    GridRowsExact(products, a, today, p);
    GridRowsExact(products, b, today, p);
    assert TotalsRows(x, p, Start(x, today), Days(x)) == TotalsRows(y, p, Start(y, today), Days(y)) by {
      forall d: Day { SumOfPermuted(x, y, OnDay(p, d)); }
    }
  }
}
