/** Where stock and recommendations meet: following a recommendation settles it. */
module Replenishment {
  import opened Wrappers
  import opened ForecastTables
  import opened SortedLists
  import opened ReorderPolicy
  import opened Recommendations
  import Inventory

  /** The recommendations read the stock that the inventory keeps. */
  ghost predicate Shares(db: Db, stock: Inventory.State) {
    db.items == stock.items && db.products == stock.products
  }

  /** Receiving exactly what a row recommends. */
  function Receipt(key: ItemKey, row: Recommendation): Inventory.Op {
    Inventory.Move(key, Inventory.StockIn, Inventory.Decimal(row.reorder, -3))
  }

  lemma RowAt(db: Db, user: UserId, run: RunId, refresh: bool, i: nat)
    requires Generate(db, user, run, refresh).1.Success?
    requires HasItems(GroupedDemand(PredictionsFor(db.predictions, user, run)), user, db.items)
    requires i < |RowsOfRun(db, user, run)|
    ensures var row := RowsOfRun(db, user, run)[i];
      && Inventory.ItemKey(user, row.product) in db.items
      && row == BuildRow(user, run, Group(row.product, row.demand), db.items[Inventory.ItemKey(user, row.product)])
      && row.demand >= 0 && RowFits(row)
  {
  }

  /** Receiving a recommended quantity is never refused: the stock it leads to is one the columns can hold. */
  lemma ReceiptIsAccepted(stock: Inventory.State, key: ItemKey, row: Recommendation)
    requires Inventory.Inv(stock) && key in stock.items && row.demand >= 0
    requires row == BuildRow(row.user, row.run, Group(row.product, row.demand), stock.items[key]) && RowFits(row)
    requires row.reorder > 0
    ensures var (moved, error) := Inventory.Apply(stock, Receipt(key, row));
      && error.None?
      && moved.items == stock.items[key := stock.items[key].(stock := row.required)]
      && moved.products == stock.products
  {
    assert Inventory.Pow10(0) == 1;
    assert Inventory.Thousandths(row.reorder, -3) == row.reorder;
  }

  lemma SettledRow(row: Recommendation, item: Inventory.Item)
    requires row.demand >= 0 && row == BuildRow(row.user, row.run, Group(row.product, row.demand), item)
    requires item.stock >= 0 && item.safety >= 0 && row.reorder > 0 && RowFits(row)
    ensures var settled := BuildRow(row.user, row.run, Group(row.product, row.demand), item.(stock := row.required));
      && settled.gap == 0 && settled.reorder == 0 && settled.risk == Low && settled.advice == NoReorderNeeded
      && RowFits(settled)
  {
    ReorderSettles(row.demand, item.stock, item.safety);
  }

  lemma RowsAfterReceipt(db: Db, more: Db, user: UserId, run: RunId, key: ItemKey, required: int)
    requires HasItems(GroupedDemand(PredictionsFor(db.predictions, user, run)), user, db.items)
    requires key in db.items && more.predictions == db.predictions
    requires more.items == db.items[key := db.items[key].(stock := required)]
    ensures HasItems(GroupedDemand(PredictionsFor(more.predictions, user, run)), user, more.items)
    ensures |RowsOfRun(more, user, run)| == |RowsOfRun(db, user, run)|
    ensures forall j :: 0 <= j < |RowsOfRun(db, user, run)| ==>
      if Inventory.ItemKey(user, RowsOfRun(db, user, run)[j].product) == key then
        RowsOfRun(more, user, run)[j] == BuildRow(
          user, run, GroupedDemand(PredictionsFor(db.predictions, user, run))[j], db.items[key].(stock := required))
      else RowsOfRun(more, user, run)[j] == RowsOfRun(db, user, run)[j]
  {
  }

  lemma ProductsAreDistinct(db: Db, user: UserId, run: RunId, i: nat)
    requires HasItems(GroupedDemand(PredictionsFor(db.predictions, user, run)), user, db.items)
    requires i < |RowsOfRun(db, user, run)|
    ensures forall j :: 0 <= j < |RowsOfRun(db, user, run)| && j != i ==>
      RowsOfRun(db, user, run)[j].product != RowsOfRun(db, user, run)[i].product
  {
    RowsCoverRun(db, user, run);
    var rows := RowsOfRun(db, user, run);
    forall j | 0 <= j < |rows| && j != i ensures rows[j].product != rows[i].product {
      assert RecommendedProducts(rows)[j] == rows[j].product && RecommendedProducts(rows)[i] == rows[i].product;
    }
  }

  lemma GeneratedRowsFit(db: Db, user: UserId, run: RunId, refresh: bool)
    requires Generate(db, user, run, refresh).1.Success?
    ensures HasItems(GroupedDemand(PredictionsFor(db.predictions, user, run)), user, db.items)
    ensures RowsFit(RowsOfRun(db, user, run))
  {
  }

  lemma SameRows(a: Db, b: Db, user: UserId, run: RunId)
    requires a.predictions == b.predictions && a.items == b.items
    requires HasItems(GroupedDemand(PredictionsFor(a.predictions, user, run)), user, a.items)
    ensures HasItems(GroupedDemand(PredictionsFor(b.predictions, user, run)), user, b.items)
    ensures RowsOfRun(a, user, run) == RowsOfRun(b, user, run)
  {
  }

  lemma StockIsNotNegative(stock: Inventory.State, key: ItemKey)
    requires Inventory.Inv(stock) && key in stock.items
    ensures stock.items[key].stock >= 0 && stock.items[key].safety >= 0
  {
  }

  /** Once the stock of the i-th product is what its row required, that row is settled and the others are the same. */
  lemma RowsAfterFollowing(db: Db, more: Db, user: UserId, run: RunId, i: nat)
    requires HasItems(GroupedDemand(PredictionsFor(db.predictions, user, run)), user, db.items)
    requires i < |RowsOfRun(db, user, run)| && more.predictions == db.predictions
    requires RowsFit(RowsOfRun(db, user, run)) && RowsOfRun(db, user, run)[i].reorder > 0
    requires var row := RowsOfRun(db, user, run)[i];
      var key := Inventory.ItemKey(user, row.product);
      && key in db.items && db.items[key].stock >= 0 && db.items[key].safety >= 0
      && more.items == db.items[key := db.items[key].(stock := row.required)]
    ensures HasItems(GroupedDemand(PredictionsFor(more.predictions, user, run)), user, more.items)
    ensures var rows, row := RowsOfRun(more, user, run), RowsOfRun(db, user, run)[i];
      && |rows| == |RowsOfRun(db, user, run)| && RowsFit(rows)
      && rows[i].product == row.product && rows[i].demand == row.demand
      && rows[i].gap == 0 && rows[i].reorder == 0 && rows[i].risk == Low
      && forall j :: 0 <= j < |rows| && j != i ==> rows[j] == RowsOfRun(db, user, run)[j]
  {
    hide RiskLevel, AdviceFor;
    var row := RowsOfRun(db, user, run)[i];
    var key := Inventory.ItemKey(user, row.product);
    SettledRow(row, db.items[key]);
    RowsAfterReceipt(db, more, user, run, key, row.required);
    ProductsAreDistinct(db, user, run, i);
  }

  lemma RegenerationSucceeds(db: Db, received: Db, user: UserId, run: RunId, refresh: bool)
    requires Generate(db, user, run, refresh).1.Success?
    requires received.runs == db.runs && received.predictions == db.predictions && received.products == db.products
    requires HasItems(GroupedDemand(PredictionsFor(db.predictions, user, run)), user, received.items)
    requires RowsFit(RowsOfRun(received, user, run))
    ensures Generate(received, user, run, true).1.Success?
  {
  }

  /**
    Generate, receive the recommended quantity of one product, generate again: that product's gap
    and reorder quantity are zero and its risk is low, and no other product's row has changed.
    */
  lemma FollowingARecommendationSettlesIt(
    db: Db, stock: Inventory.State, user: UserId, run: RunId, refresh: bool, i: nat)
    requires Inventory.Inv(stock) && Shares(db, stock)
    requires Generate(db, user, run, refresh).1.Success?
    requires HasItems(GroupedDemand(PredictionsFor(db.predictions, user, run)), user, db.items)
    requires i < |RowsOfRun(db, user, run)| && RowsOfRun(db, user, run)[i].reorder > 0
    ensures var row := RowsOfRun(db, user, run)[i];
      var key := Inventory.ItemKey(user, row.product);
      var (moved, error) := Inventory.Apply(stock, Receipt(key, row));
      var received := Generate(db, user, run, refresh).0.(items := moved.items);
      var (after, result) := Generate(received, user, run, true);
      && error.None? && result.Success?
      && HasItems(GroupedDemand(PredictionsFor(after.predictions, user, run)), user, after.items)
      && var rows := RowsOfRun(after, user, run);
      && |rows| == |RowsOfRun(db, user, run)|
      && rows[i].product == row.product && rows[i].demand == row.demand
      && rows[i].gap == 0 && rows[i].reorder == 0 && rows[i].risk == Low
      && (forall j :: 0 <= j < |rows| && j != i ==> rows[j] == RowsOfRun(db, user, run)[j])
      && after.recommendations == Others(db.recommendations, user, run) + rows
  {
    hide Generate, RowsOfRun, RowsFit;
    var row := RowsOfRun(db, user, run)[i];
    var key := Inventory.ItemKey(user, row.product);
    RowAt(db, user, run, refresh, i);
    ReceiptIsAccepted(stock, key, row);
    var moved := Inventory.Apply(stock, Receipt(key, row)).0;
    var received := Generate(db, user, run, refresh).0.(items := moved.items);
    GenerateReplacesExactly(db, user, run, refresh);
    GeneratedRowsFit(db, user, run, refresh);
    StockIsNotNegative(stock, key);
    RowsAfterFollowing(db, received, user, run, i);
    RegenerationSucceeds(db, received, user, run, refresh);
    GenerateReplacesExactly(received, user, run, true);
    SameRows(received, Generate(received, user, run, true).0, user, run);
  }

  lemma {:induction false} OwnRowsAreRunRows(table: seq<PredictionRow>, user: UserId, run: RunId)
    requires OwnedBy(table, run, user)
    ensures PredictionsFor(table, user, run) == RowsOf(table, run)
  {
    if table != [] {
      assert table[0] in table && forall row :: row in table[1..] ==> row in table;
      OwnRowsAreRunRows(table[1..], user, run);
    }
  }

  /**
    From forecast to recommendation: a stored, valid pipeline output with a positive horizon leads
    to exactly one recommendation for each product that was forecast.
    */
  lemma EveryForecastProductIsRecommended(db: Db, user: UserId, run: RunId, out: Output, horizon: nat)
    requires OwnedBy(db.predictions, run, user) && RowsOf(db.predictions, run) == out.predictions
    requires ValidOutput(out, horizon) && horizon > 0
    requires HasItems(GroupedDemand(PredictionsFor(db.predictions, user, run)), user, db.items)
    ensures |RowsOfRun(db, user, run)| == |out.products|
    ensures forall p :: p in RecommendedProducts(RowsOfRun(db, user, run)) <==> p in out.products
  {
    OwnRowsAreRunRows(db.predictions, user, run);
    ForecastProducts(out, horizon);
    RowsCoverRun(db, user, run);
    SortedSetExact(out.products);
    SameElementsSameList(RecommendedProducts(RowsOfRun(db, user, run)), SortedSet(out.products));
  }

  lemma ForecastProducts(out: Output, horizon: nat)
    requires ValidOutput(out, horizon) && horizon > 0
    ensures forall p :: p in ProductsOf(out.predictions) <==> p in out.products
  {
    ValidOutputIsComplete(out, horizon);
    var keys := KeysOf(out.predictions);
    forall p ensures p in ProductsOf(out.predictions) <==> p in out.products {
      if p in out.products {
        assert Key(p, out.lastDay + 1) in keys;
        var i :| 0 <= i < |keys| && keys[i] == Key(p, out.lastDay + 1);
        assert ProductsOf(out.predictions)[i] == p;
      }
      if p in ProductsOf(out.predictions) {
        var i :| 0 <= i < |out.predictions| && ProductsOf(out.predictions)[i] == p;
        assert keys[i] in keys;
      }
    }
  }
}
