/** Reorder recommendations for a completed forecast run: grouped demand against current stock. */
module Recommendations {
  import opened Wrappers
  import opened ForecastTables
  import opened SortedLists
  import opened ReorderPolicy
  import Inventory

  type ItemKey = Inventory.ItemKey

  datatype RunRow = RunRow(user: UserId, completed: bool)

  datatype Group = Group(product: ProductId, demand: nat)

  datatype Recommendation = Recommendation(
    user: UserId, run: RunId, product: ProductId,
    demand: int, stock: int, minimum: int, safety: int,
    required: int, reorder: int, gap: int, risk: Risk, advice: Advice)

  datatype Db = Db(
    runs: map<RunId, RunRow>,
    predictions: seq<PredictionRow>,
    products: set<ItemKey>,
    items: map<ItemKey, Inventory.Item>,
    recommendations: seq<Recommendation>)

  datatype Summary = Summary(
    products: nat, created: nat, refreshed: bool,
    critical: nat, high: nat, medium: nat, low: nat, overstocked: nat)

  datatype Error =
    | RunNotFound
    | RunNotCompleted
    | PredictionsNotFound
    | AlreadyGenerated
    | InventoryMissing
    | ProductNotFound
    | StoreRefused

  // ----- queries -------------------------------------------------------------------------------------

  function PredictionOfOne(row: PredictionRow, user: UserId, run: RunId): seq<Prediction> {
    if row.user == user && row.run == run then [row.value] else []
  }

  function PredictionsFor(table: seq<PredictionRow>, user: UserId, run: RunId): seq<Prediction> {
    if table == [] then [] else PredictionOfOne(table[0], user, run) + PredictionsFor(table[1..], user, run)
  }

  /** One column of a list of rows. */
  function Column<T>(rows: seq<T>, product: T -> ProductId): (r: seq<ProductId>)
    ensures |r| == |rows| && forall i :: 0 <= i < |r| ==> r[i] == product(rows[i])
  {
    seq(|rows|, i requires 0 <= i < |rows| => product(rows[i]))
  }

  function ProductsOf(rows: seq<Prediction>): seq<ProductId> {
    Column(rows, (row: Prediction) => row.product)
  }

  function DemandOf(rows: seq<Prediction>, product: ProductId): nat {
    if rows == [] then 0
    else (if rows[0].product == product then rows[0].demand else 0) + DemandOf(rows[1..], product)
  }

  function TotalDemand(rows: seq<Prediction>): nat {
    if rows == [] then 0 else rows[0].demand + TotalDemand(rows[1..])
  }

  /** group by product, order by product: strictly increasing, so each product once. */
  function GroupedProducts(rows: seq<Prediction>): (r: seq<ProductId>)
    ensures StrictlyIncreasing(r)
    ensures forall p :: p in r <==> p in ProductsOf(rows)
  {
    SortedSetExact(ProductsOf(rows));
    var sorted := SortedSet(ProductsOf(rows));
    assert forall i :: 0 <= i < |sorted| ==> sorted[i] in sorted;
    sorted
  }

  function GroupedDemand(rows: seq<Prediction>): (r: seq<Group>)
    ensures |r| == |GroupedProducts(rows)|
    ensures forall i :: 0 <= i < |r| ==>
      r[i] == Group(GroupedProducts(rows)[i], DemandOf(rows, GroupedProducts(rows)[i]))
  {
    var products := GroupedProducts(rows);
    seq(|products|, i requires 0 <= i < |products| => Group(products[i], DemandOf(rows, products[i])))
  }

  // ----- rows ------------------------------------------------------------------------------------------

  function BuildRow(user: UserId, run: RunId, group: Group, item: Inventory.Item): Recommendation {
    var required := RequiredStock(group.demand, item.safety);
    var gap := StockGap(required, item.stock);
    var reorder := ReorderQuantity(gap);
    var risk := RiskLevel(group.demand, item.stock, required, reorder);
    Recommendation(
      user, run, group.product, group.demand, item.stock, item.minimum, item.safety,
      required, reorder, gap, risk, AdviceFor(risk))
  }

  predicate HasItems(groups: seq<Group>, user: UserId, items: map<ItemKey, Inventory.Item>) {
    forall i :: 0 <= i < |groups| ==> Inventory.ItemKey(user, groups[i].product) in items
  }

  function BuildRows(user: UserId, run: RunId, groups: seq<Group>, items: map<ItemKey, Inventory.Item>)
    : (r: seq<Recommendation>)
    requires HasItems(groups, user, items)
    ensures |r| == |groups|
    ensures forall i :: 0 <= i < |r| ==>
      r[i] == BuildRow(user, run, groups[i], items[Inventory.ItemKey(user, groups[i].product)])
  {
    seq(|groups|, i requires 0 <= i < |groups| =>
      BuildRow(user, run, groups[i], items[Inventory.ItemKey(user, groups[i].product)]))
  }

  predicate RowFits(row: Recommendation) {
    Inventory.FitsColumn(row.demand) && Inventory.FitsColumn(row.required)
    && Inventory.FitsColumn(row.gap) && Inventory.FitsColumn(row.reorder)
  }

  predicate RowsFit(rows: seq<Recommendation>) {
    forall i :: 0 <= i < |rows| ==> RowFits(rows[i])
  }

  function CountRisk(rows: seq<Recommendation>, risk: Risk): nat {
    if rows == [] then 0 else (if rows[0].risk == risk then 1 else 0) + CountRisk(rows[1..], risk)
  }

  predicate IsFor(row: Recommendation, user: UserId, run: RunId) {
    row.user == user && row.run == run
  }

  function CountFor(table: seq<Recommendation>, user: UserId, run: RunId): nat {
    if table == [] then 0 else (if IsFor(table[0], user, run) then 1 else 0) + CountFor(table[1..], user, run)
  }

  function OthersOfOne(row: Recommendation, user: UserId, run: RunId): seq<Recommendation> {
    if IsFor(row, user, run) then [] else [row]
  }

  /** What a delete for this user and run leaves. */
  function Others(table: seq<Recommendation>, user: UserId, run: RunId): seq<Recommendation> {
    if table == [] then [] else OthersOfOne(table[0], user, run) + Others(table[1..], user, run)
  }

  function SummaryOf(rows: seq<Recommendation>, refreshed: bool): Summary {
    Summary(
      |rows|, |rows|, refreshed,
      CountRisk(rows, Critical), CountRisk(rows, High), CountRisk(rows, Medium),
      CountRisk(rows, Low), CountRisk(rows, Overstocked))
  }

  // ----- generate ---------------------------------------------------------------------------------------

  function Generate(db: Db, user: UserId, run: RunId, refresh: bool): (Db, Result<Summary, Error>) {
    if run !in db.runs || db.runs[run].user != user then (db, Failure(RunNotFound))
    else if !db.runs[run].completed then (db, Failure(RunNotCompleted))
    else
      var predictions := PredictionsFor(db.predictions, user, run);
      var existing := CountFor(db.recommendations, user, run);
      if predictions == [] then (db, Failure(PredictionsNotFound))
      else if existing > 0 && !refresh then (db, Failure(AlreadyGenerated))
      else
        var groups := GroupedDemand(predictions);
        if !HasItems(groups, user, db.items) then (db, Failure(InventoryMissing))
        else if exists i :: 0 <= i < |groups| && Inventory.ItemKey(user, groups[i].product) !in db.products then
          (db, Failure(ProductNotFound))
        else
          var rows := BuildRows(user, run, groups, db.items);
          if !RowsFit(rows) then (db, Failure(StoreRefused))
          else
            (db.(recommendations := Others(db.recommendations, user, run) + rows),
             Success(SummaryOf(rows, existing > 0)))
  }

  /** The rows a successful call stores. */
  function RowsOfRun(db: Db, user: UserId, run: RunId): seq<Recommendation>
    requires HasItems(GroupedDemand(PredictionsFor(db.predictions, user, run)), user, db.items)
  {
    BuildRows(user, run, GroupedDemand(PredictionsFor(db.predictions, user, run)), db.items)
  }

  // ----- what is stored -----------------------------------------------------------------------------------

  lemma {:induction false} OthersExact(table: seq<Recommendation>, user: UserId, run: RunId)
    ensures forall row :: row in Others(table, user, run) <==> row in table && !IsFor(row, user, run)
    ensures CountFor(Others(table, user, run), user, run) == 0
    ensures CountFor(table, user, run) == 0 ==> Others(table, user, run) == table
  {
    if table != [] {
      OthersExact(table[1..], user, run);
      assert table == [table[0]] + table[1..];
      CountConcat(OthersOfOne(table[0], user, run), Others(table[1..], user, run), user, run);
    }
  }

  lemma {:induction false} CountConcat(a: seq<Recommendation>, b: seq<Recommendation>, user: UserId, run: RunId)
    ensures CountFor(a + b, user, run) == CountFor(a, user, run) + CountFor(b, user, run)
  {
    if a == [] {
      assert a + b == b;
    } else {
      assert (a + b)[1..] == a[1..] + b;
      CountConcat(a[1..], b, user, run);
    }
  }

  lemma {:induction false} OthersConcat(a: seq<Recommendation>, b: seq<Recommendation>, user: UserId, run: RunId)
    ensures Others(a + b, user, run) == Others(a, user, run) + Others(b, user, run)
  {
    if a == [] {
      assert a + b == b;
    } else {
      assert (a + b)[1..] == a[1..] + b;
      OthersConcat(a[1..], b, user, run);
      assert OthersOfOne(a[0], user, run) + (Others(a[1..], user, run) + Others(b, user, run))
          == (OthersOfOne(a[0], user, run) + Others(a[1..], user, run)) + Others(b, user, run);
    }
  }

  lemma {:induction false} NoOthers(rows: seq<Recommendation>, user: UserId, run: RunId)
    requires forall i :: 0 <= i < |rows| ==> IsFor(rows[i], user, run)
    ensures Others(rows, user, run) == [] && CountFor(rows, user, run) == |rows|
  {
    if rows != [] { NoOthers(rows[1..], user, run); }
  }

  // ----- one row per product, and sums ------------------------------------------------------------------------

  function SumDemands(rows: seq<Recommendation>): int {
    if rows == [] then 0 else rows[0].demand + SumDemands(rows[1..])
  }

  function SumGroups(groups: seq<Group>): nat {
    if groups == [] then 0 else groups[0].demand + SumGroups(groups[1..])
  }

  /** Sums over a list of products of what each of them contributes. */
  function SumOver(rows: seq<Prediction>, products: seq<ProductId>): nat {
    if products == [] then 0 else DemandOf(rows, products[0]) + SumOver(rows, products[1..])
  }

  lemma {:induction false} OneMoreRow(rows: seq<Prediction>, products: seq<ProductId>)
    requires rows != [] && Distinct(products)
    ensures SumOver(rows, products)
         == SumOver(rows[1..], products) + if rows[0].product in products then rows[0].demand else 0
  {
    if products != [] {
      OneMoreRow(rows, products[1..]);
      assert products == [products[0]] + products[1..];
      assert rows[0].product == products[0] ==> rows[0].product !in products[1..];
    }
  }

  lemma {:induction false} NothingToSum(products: seq<ProductId>)
    ensures SumOver([], products) == 0
  {
    if products != [] { NothingToSum(products[1..]); }
  }

  /** Grouping loses and doubles nothing. */
  lemma {:induction false} SumOverIsTotal(rows: seq<Prediction>, products: seq<ProductId>)
    requires Distinct(products) && forall i :: 0 <= i < |rows| ==> rows[i].product in products
    ensures SumOver(rows, products) == TotalDemand(rows)
  {
    if rows == [] {
      NothingToSum(products);
    } else {
      SumOverIsTotal(rows[1..], products);
      OneMoreRow(rows, products);
      assert rows[0].product in products;
    }
  }

  lemma {:induction false} SumOfGroups(rows: seq<Prediction>, groups: seq<Group>, products: seq<ProductId>)
    requires |groups| == |products|
    requires forall i :: 0 <= i < |groups| ==> groups[i] == Group(products[i], DemandOf(rows, products[i]))
    ensures SumGroups(groups) == SumOver(rows, products)
  {
    if groups != [] { SumOfGroups(rows, groups[1..], products[1..]); }
  }

  lemma {:induction false} SumOfBuiltRows(
    user: UserId, run: RunId, groups: seq<Group>, items: map<ItemKey, Inventory.Item>, rows: seq<Recommendation>)
    requires |rows| == |groups| && forall i :: 0 <= i < |rows| ==> rows[i].demand == groups[i].demand
    ensures SumDemands(rows) == SumGroups(groups)
  {
    if rows != [] { SumOfBuiltRows(user, run, groups[1..], items, rows[1..]); }
  }

  lemma {:induction false} RisksPartition(rows: seq<Recommendation>)
    ensures CountRisk(rows, Critical) + CountRisk(rows, High) + CountRisk(rows, Medium)
          + CountRisk(rows, Low) + CountRisk(rows, Overstocked) == |rows|
  {
    if rows != [] { RisksPartition(rows[1..]); }
  }

  function RecommendedProducts(rows: seq<Recommendation>): seq<ProductId> {
    Column(rows, (row: Recommendation) => row.product)
  }

  lemma RowsAreGroups(db: Db, user: UserId, run: RunId)
    requires HasItems(GroupedDemand(PredictionsFor(db.predictions, user, run)), user, db.items)
    ensures RecommendedProducts(RowsOfRun(db, user, run)) == GroupedProducts(PredictionsFor(db.predictions, user, run))
    ensures SumDemands(RowsOfRun(db, user, run)) == SumGroups(GroupedDemand(PredictionsFor(db.predictions, user, run)))
  {
    var groups := GroupedDemand(PredictionsFor(db.predictions, user, run));
    SumOfBuiltRows(user, run, groups, db.items, RowsOfRun(db, user, run));
  }

  lemma GroupsKeepTotal(rows: seq<Prediction>)
    ensures SumGroups(GroupedDemand(rows)) == TotalDemand(rows)
  {
    var products := GroupedProducts(rows);
    forall i | 0 <= i < |rows| ensures rows[i].product in products {
      assert ProductsOf(rows)[i] == rows[i].product;
    }
    SumOverIsTotal(rows, products);
    SumOfGroups(rows, GroupedDemand(rows), products);
  }

  /**
    A successful generation: exactly one row per forecast product, in increasing order; demands that
    add up to the run's total; counts that add up to the rows.
    */
  lemma RowsCoverRun(db: Db, user: UserId, run: RunId)
    requires HasItems(GroupedDemand(PredictionsFor(db.predictions, user, run)), user, db.items)
    ensures var rows, predictions := RowsOfRun(db, user, run), PredictionsFor(db.predictions, user, run);
      && StrictlyIncreasing(RecommendedProducts(rows))
      && (forall p :: p in RecommendedProducts(rows) <==> p in ProductsOf(predictions))
      && SumDemands(rows) == TotalDemand(predictions)
      && var summary := SummaryOf(rows, true);
         summary.critical + summary.high + summary.medium + summary.low + summary.overstocked == summary.created
  {
    RowsAreGroups(db, user, run);
    GroupsKeepTotal(PredictionsFor(db.predictions, user, run));
    RisksPartition(RowsOfRun(db, user, run));
  }

  /**
    What a call leaves in the table: on success exactly the built rows for its run, and every other
    row as it was; on failure everything as it was.
    */
  lemma GenerateReplacesExactly(db: Db, user: UserId, run: RunId, refresh: bool)
    ensures var (after, result) := Generate(db, user, run, refresh);
      && (result.Failure? ==> after == db)
      && (result.Success? ==>
            && HasItems(GroupedDemand(PredictionsFor(db.predictions, user, run)), user, db.items)
            && after == db.(recommendations := after.recommendations)
            && after.recommendations == Others(db.recommendations, user, run) + RowsOfRun(db, user, run)
            && CountFor(after.recommendations, user, run) == |RowsOfRun(db, user, run)| > 0
            && Others(after.recommendations, user, run) == Others(db.recommendations, user, run))
  {
    var (after, result) := Generate(db, user, run, refresh);
    if result.Success? {
      var rows, others := RowsOfRun(db, user, run), Others(db.recommendations, user, run);
      var predictions := PredictionsFor(db.predictions, user, run);
      assert ProductsOf(predictions)[0] in GroupedProducts(predictions);
      OthersExact(db.recommendations, user, run);
      OthersExact(others, user, run);
      NoOthers(rows, user, run);
      CountConcat(others, rows, user, run);
      OthersConcat(others, rows, user, run);
      assert others + [] == others;
    }
  }

  /** Repeating a generation is refused without refresh and changes nothing with it. */
  lemma RegenerationIsIdempotent(db: Db, user: UserId, run: RunId, refresh: bool)
    requires Generate(db, user, run, refresh).1.Success?
    ensures var after := Generate(db, user, run, refresh).0;
      && Generate(after, user, run, false) == (after, Failure(AlreadyGenerated))
      && Generate(after, user, run, true).0 == after
      && Generate(after, user, run, true).1.Success?
      && Generate(after, user, run, true).1.value.refreshed
  {
    GenerateReplacesExactly(db, user, run, refresh);
    var after := Generate(db, user, run, refresh).0;
    GenerateReplacesExactly(after, user, run, true);
    assert RowsOfRun(after, user, run) == RowsOfRun(db, user, run);
  }


  // ----- one row, and one call ---------------------------------------------------------------------------

  /** The advice goes with the quantity: order now or watch exactly where something is to be ordered. */
  lemma AdviceFollowsRisk(risk: Risk)
    ensures AdviceFor(risk) == ReorderNow <==> risk.Critical? || risk.High?
    ensures AdviceFor(risk) == Monitor <==> risk.Medium?
    ensures AdviceFor(risk) == OverstockReview <==> risk.Overstocked?
    ensures AdviceFor(risk) == NoReorderNeeded <==> risk.Low?
  {
  }

  /** A stored row repeats the product's demand and stock figures, and the policy applied to them. */
  lemma RowIsExact(user: UserId, run: RunId, group: Group, item: Inventory.Item)
    ensures var row := BuildRow(user, run, group, item);
      && row.user == user && row.run == run && row.product == group.product && row.demand == group.demand
      && row.stock == item.stock && row.minimum == item.minimum && row.safety == item.safety
      && row.required == group.demand + item.safety
      && row.gap == group.demand + item.safety - item.stock
      && row.reorder == ReorderFor(group.demand, item.stock, item.safety)
      && row.risk == RiskFor(group.demand, item.stock, item.safety)
      && row.advice == AdviceFor(row.risk)
  {
  }

  function OfOneProduct(row: Prediction, product: ProductId): seq<Prediction> {
    if row.product == product then [row] else []
  }

  function OfProduct(rows: seq<Prediction>, product: ProductId): seq<Prediction> {
    if rows == [] then [] else OfOneProduct(rows[0], product) + OfProduct(rows[1..], product)
  }

  /** A group's demand is the total of exactly its own product's predictions. */
  lemma {:induction false} DemandIsOwnTotal(rows: seq<Prediction>, product: ProductId)
    ensures DemandOf(rows, product) == TotalDemand(OfProduct(rows, product))
    ensures forall row :: row in OfProduct(rows, product) <==> row in rows && row.product == product
  {
    if rows != [] {
      DemandIsOwnTotal(rows[1..], product);
      assert rows == [rows[0]] + rows[1..];
      if rows[0].product == product {
        assert OfProduct(rows, product)[1..] == OfProduct(rows[1..], product);
      } else {
        assert OfProduct(rows, product) == OfProduct(rows[1..], product);
      }
    }
  }

  /** The predictions a call looks at are those of this user's run. */
  lemma {:induction false} PredictionsAreOwn(table: seq<PredictionRow>, user: UserId, run: RunId)
    ensures forall p :: p in PredictionsFor(table, user, run) <==> Stored(user, run, p) in table
  {
    if table != [] {
      PredictionsAreOwn(table[1..], user, run);
      assert table == [table[0]] + table[1..];
    }
  }

  /** A row fits when none of its numbers reaches 100000000000 units either way. */
  lemma RowFitsExactly(user: UserId, run: RunId, group: Group, item: Inventory.Item)
    ensures var required := group.demand + item.safety;
      RowFits(BuildRow(user, run, group, item)) <==>
        && group.demand < 100_000_000_000_000
        && -100_000_000_000_000 < required < 100_000_000_000_000
        && -100_000_000_000_000 < required - item.stock < 100_000_000_000_000
  {
  }

  /** The call succeeds exactly when nothing is missing, and each refusal names the first thing that is. */
  lemma GenerateAnswersExactly(db: Db, user: UserId, run: RunId, refresh: bool)
    ensures var (after, result) := Generate(db, user, run, refresh);
      var owned := run in db.runs && db.runs[run].user == user;
      var ready := owned && db.runs[run].completed;
      var predictions := PredictionsFor(db.predictions, user, run);
      var products := ProductsOf(predictions);
      var open := ready && predictions != [] && (refresh || CountFor(db.recommendations, user, run) == 0);
      var stocked := open && forall p :: p in products ==> Inventory.ItemKey(user, p) in db.items;
      var known := stocked && forall p :: p in products ==> Inventory.ItemKey(user, p) in db.products;
      match result
      case Failure(RunNotFound) => !owned
      case Failure(RunNotCompleted) => owned && !ready
      case Failure(PredictionsNotFound) => ready && predictions == []
      case Failure(AlreadyGenerated) => ready && predictions != [] && !open
      case Failure(InventoryMissing) => open && !stocked
      case Failure(ProductNotFound) => stocked && !known
      case Failure(StoreRefused) => known && !RowsFit(RowsOfRun(db, user, run))
      case Success(summary) =>
        && known && RowsFit(RowsOfRun(db, user, run))
        && summary == Summary(
             |RowsOfRun(db, user, run)|, |RowsOfRun(db, user, run)|, CountFor(db.recommendations, user, run) > 0,
             CountRisk(RowsOfRun(db, user, run), Critical), CountRisk(RowsOfRun(db, user, run), High),
             CountRisk(RowsOfRun(db, user, run), Medium), CountRisk(RowsOfRun(db, user, run), Low),
             CountRisk(RowsOfRun(db, user, run), Overstocked))
  {
  }
}
