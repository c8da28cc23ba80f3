/** The recommendation service: one transaction that replaces a run's stored rows. */
module RecommendationService {
  import opened Wrappers
  import opened ForecastTables
  import opened ReorderPolicy
  import opened Recommendations
  import Inventory

  class RecommendationStore {
    var runs: map<RunId, RunRow>
    var predictions: seq<PredictionRow>
    var products: set<ItemKey>
    var items: map<ItemKey, Inventory.Item>
    var recommendations: seq<Recommendation>

    ghost function Now(): Db
      reads this
    {
      Db(runs, predictions, products, items, recommendations)
    }

    constructor (db: Db)
      ensures Now() == db
    {
      runs, predictions, products, items := db.runs, db.predictions, db.products, db.items;
      recommendations := db.recommendations;
    }

    method DeleteRecommendationsForRun(user: UserId, run: RunId)
      modifies this`recommendations
      ensures recommendations == Others(old(recommendations), user, run)
    {
      recommendations := Others(recommendations, user, run);
    }

    /** The flush: refused when a value does not fit its column. */
    method BulkCreateRecommendations(rows: seq<Recommendation>) returns (ok: bool)
      modifies this`recommendations
      ensures ok == RowsFit(rows)
      ensures recommendations == if ok then old(recommendations) + rows else old(recommendations)
    {
      ok := RowsFit(rows);
      if ok {
        recommendations := recommendations + rows;
      }
    }

    method GenerateForForecastRun(user: UserId, run: RunId, refresh: bool) returns (result: Result<Summary, Error>)
      modifies this`recommendations
      ensures (Now(), result) == Generate(old(Now()), user, run, refresh)
    {
      if run !in runs || runs[run].user != user {
        return Failure(RunNotFound);
      }
      if !runs[run].completed {
        return Failure(RunNotCompleted);
      }
      var forecast := PredictionsFor(predictions, user, run);
      if |forecast| == 0 {
        return Failure(PredictionsNotFound);
      }
      var existing := CountFor(recommendations, user, run);
      if existing > 0 && !refresh {
        return Failure(AlreadyGenerated);
      }
      var groups := GroupedDemand(forecast);
      if !HasItems(groups, user, items) {
        return Failure(InventoryMissing);
      }
      if exists i :: 0 <= i < |groups| && Inventory.ItemKey(user, groups[i].product) !in products {
        return Failure(ProductNotFound);
      }
      var rows := BuildRows(user, run, groups, items);
      var saved := recommendations;
      if existing > 0 {
        DeleteRecommendationsForRun(user, run);
      }
      OthersExact(saved, user, run);
      var ok := BulkCreateRecommendations(rows);
      if !ok {
        recommendations := saved;
        return Failure(StoreRefused);
      }
      var summary := CountRisks(rows, existing > 0);
      return Success(summary);
    }
  }

  lemma CountStep(rows: seq<Recommendation>, i: nat, risk: Risk)
    requires i < |rows|
    ensures CountRisk(rows[i..], risk) == (if rows[i].risk == risk then 1 else 0) + CountRisk(rows[i + 1..], risk)
  {
    assert rows[i..][1..] == rows[i + 1..];
  }

  /** _risk_counts, in one pass. */
  method CountRisks(rows: seq<Recommendation>, refreshed: bool) returns (summary: Summary)
    ensures summary == SummaryOf(rows, refreshed)
    ensures summary.critical + summary.high + summary.medium + summary.low + summary.overstocked == |rows|
  {
    var critical, high, medium, low, overstocked := 0, 0, 0, 0, 0;
    for i := 0 to |rows|
      invariant critical + CountRisk(rows[i..], Critical) == CountRisk(rows, Critical)
      invariant high + CountRisk(rows[i..], High) == CountRisk(rows, High)
      invariant medium + CountRisk(rows[i..], Medium) == CountRisk(rows, Medium)
      invariant low + CountRisk(rows[i..], Low) == CountRisk(rows, Low)
      invariant overstocked + CountRisk(rows[i..], Overstocked) == CountRisk(rows, Overstocked)
    {
      CountStep(rows, i, Critical);
      CountStep(rows, i, High);
      CountStep(rows, i, Medium);
      CountStep(rows, i, Low);
      CountStep(rows, i, Overstocked);
      match rows[i].risk
      case Critical => critical := critical + 1;
      case High => high := high + 1;
      case Medium => medium := medium + 1;
      case Low => low := low + 1;
      case Overstocked => overstocked := overstocked + 1;
    }
    summary := Summary(|rows|, |rows|, refreshed, critical, high, medium, low, overstocked);
    RisksPartition(rows);
  }
}
