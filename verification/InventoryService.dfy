/** The inventory service and its repository: transactions that change items and append ledger rows. */
module InventoryService {
  import opened Wrappers
  import opened Inventory

  lemma StockInRange(s: State)
    requires Inv(s)
    ensures forall key :: key in s.items ==> 0 <= s.items[key].stock < MAX_STOCK
  {
  }

  class InventoryStore {
    var products: set<ItemKey>
    var items: map<ItemKey, Item>
    var ledger: seq<Movement>

    ghost function Now(): State
      reads this
    {
      State(products, items, ledger)
    }

    constructor ()
      ensures Now() == INIT && Inv(Now())
    {
      products, items, ledger := {}, map[], [];
    }

    /** The flushed columns of one row; false when a value does not fit. */
    method UpdateStock(key: ItemKey, stock: int) returns (ok: bool)
      requires key in items
      modifies this`items
      ensures ok == FitsColumn(stock)
      ensures items == if ok then old(items)[key := old(items[key]).(stock := stock)] else old(items)
    {
      ok := FitsColumn(stock);
      if ok {
        items := items[key := items[key].(stock := stock)];
      }
    }

    method AppendMovement(key: ItemKey, kind: Kind, delta: int, before: int, after: int) returns (ok: bool)
      modifies this`ledger
      ensures ok == (FitsColumn(delta) && FitsColumn(before) && FitsColumn(after))
      ensures ledger == if ok then old(ledger) + [Movement(key, kind, delta, before, after)] else old(ledger)
    {
      ok := FitsColumn(delta) && FitsColumn(before) && FitsColumn(after);
      if ok {
        ledger := ledger + [Movement(key, kind, delta, before, after)];
      }
    }

    method CreateInventoryItem(
      key: ItemKey, opening: Option<Raw>, minimum: Option<Raw>, safety: Option<Raw>, active: bool)
      returns (error: Option<Error>)
      requires Inv(Now())
      modifies this
      ensures Inv(Now())
      ensures (Now(), error) == Apply(old(Now()), Create(key, opening, minimum, safety, active))
    {
      hide Inv, NormalizeStock, NormalizeThreshold, OrZero;
      CreateKeepsInv(Now(), Create(key, opening, minimum, safety, active));
      if key !in products {
        return Some(ProductNotFound);
      }
      if key in items {
        return Some(ItemExists);
      }
      var openingStock := NormalizeStock(OrZero(opening));
      if openingStock.Failure? {
        return Some(openingStock.error);
      }
      var minimumStock := NormalizeThreshold(OrZero(minimum));
      if minimumStock.Failure? {
        return Some(minimumStock.error);
      }
      var safetyStock := NormalizeThreshold(OrZero(safety));
      if safetyStock.Failure? {
        return Some(safetyStock.error);
      }
      items := items[key := Item(openingStock.value, minimumStock.value, safetyStock.value, active)];
      if openingStock.value > 0 {
        var ok := AppendMovement(key, OpeningStock, openingStock.value, 0, openingStock.value);
      }
      return None;
    }

    /** Lock the item, compute, write the item, append the row, commit; a value that does not fit rolls back. */
    method CreateStockMovement(key: ItemKey, kind: Kind, quantity: Raw) returns (error: Option<Error>)
      requires Inv(Now())
      modifies this
      ensures Inv(Now())
      ensures (Now(), error) == Apply(old(Now()), Move(key, kind, quantity))
    {
      hide Inv, CalculateMovement;
      MoveKeepsInv(Now(), Move(key, kind, quantity));
      StockInRange(Now());
      if key !in products {
        return Some(ProductNotFound);
      }
      if kind == OpeningStock || kind == UnknownKind {
        return Some(InvalidMovementType);
      }
      if key !in items {
        return Some(ItemNotFound);
      }
      var before := items[key].stock;
      var change := CalculateMovement(kind, before, quantity);
      if change.Failure? {
        return Some(change.error);
      }
      MovementAddsUp(kind, before, quantity);
      var savedItems, savedLedger := items, ledger;
      var stored := UpdateStock(key, change.value.after);
      var appended := AppendMovement(key, kind, change.value.delta, before, change.value.after);
      if !stored || !appended {
        items, ledger := savedItems, savedLedger;
        return Some(StoreRefused);
      }
      return None;
    }

    method UpdateInventoryThresholds(
      key: ItemKey, minimum: Option<Raw>, safety: Option<Raw>, active: Option<bool>)
      returns (error: Option<Error>)
      requires Inv(Now())
      modifies this`items
      ensures Inv(Now())
      ensures (Now(), error) == Apply(old(Now()), Update(key, minimum, safety, active))
    {
      hide Inv, NormalizeThreshold;
      UpdateKeepsInv(Now(), Update(key, minimum, safety, active));
      if key !in products {
        return Some(ProductNotFound);
      }
      if key !in items {
        return Some(ItemNotFound);
      }
      var item := items[key];
      if minimum.Some? {
        var value := NormalizeThreshold(minimum.value);
        if value.Failure? {
          return Some(value.error);
        }
        item := item.(minimum := value.value);
      }
      if safety.Some? {
        var value := NormalizeThreshold(safety.value);
        if value.Failure? {
          return Some(value.error);
        }
        item := item.(safety := value.value);
      }
      if minimum.None? && safety.None? && active.None? {
        return Some(InvalidField);
      }
      if active.Some? {
        item := item.(active := active.value);
      }
      items := items[key := item];
      return None;
    }
  }
}
