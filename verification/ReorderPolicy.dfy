/** How much to reorder and how urgent it is. All quantities are whole thousandths, so quantizing is exact. */
module ReorderPolicy {
  datatype Risk = Critical | High | Medium | Low | Overstocked

  datatype Advice = ReorderNow | Monitor | OverstockReview | NoReorderNeeded

  function RequiredStock(demand: int, safety: int): int {
    demand + safety
  }

  function StockGap(required: int, stock: int): int {
    required - stock
  }

  function ReorderQuantity(gap: int): int {
    if gap <= 0 then 0 else gap
  }

  function RiskLevel(demand: int, stock: int, required: int, reorder: int): Risk {
    if stock <= 0 && demand > 0 then Critical
    else if demand > 0 && stock >= required * 2 then Overstocked
    else if reorder > 0 && stock < demand then High
    else if reorder > 0 && stock >= demand && stock < required then Medium
    else Low
  }

  function AdviceFor(risk: Risk): Advice {
    if risk.Critical? || risk.High? then ReorderNow
    else if risk.Medium? then Monitor
    else if risk.Overstocked? then OverstockReview
    else NoReorderNeeded
  }

  /** The whole policy for one product. */
  function RiskFor(demand: int, stock: int, safety: int): Risk {
    var required := RequiredStock(demand, safety);
    RiskLevel(demand, stock, required, ReorderQuantity(StockGap(required, stock)))
  }

  function ReorderFor(demand: int, stock: int, safety: int): int {
    ReorderQuantity(StockGap(RequiredStock(demand, safety), stock))
  }

  /** For positive demand the classes are five bands of stock, for no demand two. */
  lemma RiskIsBand(demand: int, stock: int, safety: int)
    requires demand >= 0 && stock >= 0 && safety >= 0
    ensures demand > 0 ==>
      match RiskFor(demand, stock, safety)
      case Critical => stock == 0
      case High => 0 < stock < demand
      case Medium => 0 < stock && demand <= stock < demand + safety
      case Low => demand + safety <= stock < 2 * (demand + safety)
      case Overstocked => 2 * (demand + safety) <= stock
    ensures demand == 0 ==> RiskFor(demand, stock, safety) == if stock < safety then Medium else Low
  {
  }

  /** From most urgent to most plentiful. */
  function Rank(risk: Risk): nat {
    match risk
    case Critical => 0
    case High => 1
    case Medium => 2
    case Low => 3
    case Overstocked => 4
  }

  /** Something is to be reordered exactly for critical, high and medium, and it fills the gap exactly. */
  lemma ReorderMatchesRisk(demand: int, stock: int, safety: int)
    requires demand >= 0 && stock >= 0 && safety >= 0
    ensures ReorderFor(demand, stock, safety) > 0 <==>
      Rank(RiskFor(demand, stock, safety)) <= Rank(Medium)
    ensures ReorderFor(demand, stock, safety) > 0 ==> stock + ReorderFor(demand, stock, safety) == demand + safety
    ensures ReorderFor(demand, stock, safety) == 0 <==> demand + safety <= stock
  {
  }

  /** More stock never makes a product more urgent, for any demand. */
  lemma RiskIsMonotoneInStock(demand: int, stock: int, more: int, safety: int)
    requires demand >= 0 && 0 <= stock <= more && safety >= 0
    ensures Rank(RiskFor(demand, stock, safety)) <= Rank(RiskFor(demand, more, safety))
  {
  }

  /** More demand never makes a product less urgent, unless there was none and stock becomes a surplus. */
  lemma RiskIsMonotoneInDemand(demand: int, more: int, stock: int, safety: int)
    requires 0 <= demand <= more && stock >= 0 && safety >= 0
    ensures Rank(RiskFor(more, stock, safety)) <= Rank(RiskFor(demand, stock, safety))
       <==> !(demand == 0 < more && 2 * (more + safety) <= stock)
  {
  }

  /** Ten in stock and nothing forecast is low risk; forecast one, and the same stock counts as a surplus. */
  lemma MoreDemandCanLookLessUrgent()
    ensures RiskFor(0, 10, 0) == Low && RiskFor(1, 10, 0) == Overstocked
    ensures Rank(RiskFor(1, 10, 0)) > Rank(RiskFor(0, 10, 0))
  {
  }

  /** Ordering the recommended quantity closes the gap and leaves low risk, once and for all. */
  lemma ReorderSettles(demand: int, stock: int, safety: int)
    requires demand >= 0 && stock >= 0 && safety >= 0 && ReorderFor(demand, stock, safety) > 0
    ensures var filled := stock + ReorderFor(demand, stock, safety);
      && StockGap(RequiredStock(demand, safety), filled) == 0
      && ReorderFor(demand, filled, safety) == 0
      && RiskFor(demand, filled, safety) == Low
  {
  }
}
