/** Stock items and their ledger. Stored quantities count thousandths, as the columns do. */
module Inventory {
  import opened Wrappers

  type UserId = nat
  type ProductId = nat

  /** What a request can hold where a quantity is expected; a decimal is mantissa x 10^exponent. */
  datatype Raw = Missing | NotANumber | Decimal(mantissa: int, exponent: int)

  datatype Kind = OpeningStock | StockIn | StockOut | Adjustment | Correction | UnknownKind

  datatype Error =
    | InvalidQuantity
    | InvalidThreshold
    | InvalidField
    | InvalidMovementType
    | InsufficientStock
    | ProductNotFound
    | ItemNotFound
    | ItemExists
    | StoreRefused

  /** 100000000000, in thousandths: the first quantity that is too large. */
  const MAX_STOCK := 100_000_000_000_000

  function Pow10(n: nat): (r: nat)
    ensures r >= 1
  {
    if n == 0 then 1 else 10 * Pow10(n - 1)
  }

  /** quantize(0.001) of a decimal with at most three places. */
  function Thousandths(mantissa: int, exponent: int): int
    requires exponent >= -3
  {
    mantissa * Pow10(exponent + 3)
  }

  function NormalizeStock(value: Raw): (r: Result<int, Error>)
    ensures r.Success? ==> 0 <= r.value < MAX_STOCK
  {
    match value
    case Missing => Failure(InvalidQuantity)
    case NotANumber => Failure(InvalidQuantity)
    case Decimal(m, e) =>
      if m < 0 || e < -3 || Thousandths(m, e) >= MAX_STOCK then Failure(InvalidQuantity)
      else Success(Thousandths(m, e))
  }

  function NormalizeSigned(value: Raw): Result<int, Error> {
    match value
    case Missing => Failure(InvalidQuantity)
    case NotANumber => Failure(InvalidQuantity)
    case Decimal(m, e) =>
      if m == 0 || e < -3 || Thousandths(m, e) >= MAX_STOCK || Thousandths(m, e) <= -MAX_STOCK then
        Failure(InvalidQuantity)
      else Success(Thousandths(m, e))
  }

  function NormalizeThreshold(value: Raw): (r: Result<int, Error>)
    ensures r.Success? ==> 0 <= r.value < MAX_STOCK
  {
    match NormalizeStock(value)
    case Failure(_) => Failure(InvalidThreshold)
    case Success(v) => Success(v)
  }

  lemma {:induction false} PowersAdd(a: nat, b: nat)
    ensures Pow10(a + b) == Pow10(a) * Pow10(b)
  {
    if a > 0 { PowersAdd(a - 1, b); }
  }

  /** Quantizing neither rounds nor loses anything: the stored thousandths are the given decimal, exactly. */
  lemma QuantizeIsExact(mantissa: int, exponent: int)
    requires exponent >= -3
    ensures exponent >= 0 ==> Thousandths(mantissa, exponent) == 1000 * (mantissa * Pow10(exponent))
    ensures exponent < 0 ==> Thousandths(mantissa, exponent) * Pow10(-exponent) == 1000 * mantissa
  {
    assert Pow10(3) == 1000 by { assert Pow10(2) == 100; }
    if exponent >= 0 {
      PowersAdd(exponent, 3);
    } else {
      PowersAdd(exponent + 3, -exponent);
    }
  }

  /** Stored stock, normalized once more before a movement is computed, is what it was. */
  lemma StoredStockIsNormal(stock: int)
    requires 0 <= stock < MAX_STOCK
    ensures NormalizeStock(Decimal(stock, -3)) == Success(stock)
  {
  }

  // ----- one movement ---------------------------------------------------------------------------------

  datatype Change = Change(delta: int, after: int)

  /** The movement type is validated first, then the current stock is normalized like any quantity. */
  function CalculateMovement(kind: Kind, current: int, quantity: Raw): Result<Change, Error> {
    if kind == UnknownKind then Failure(InvalidMovementType)
    else match NormalizeStock(Decimal(current, -3))
      case Failure(e) => Failure(e)
      case Success(stock) => MovementFrom(kind, stock, quantity)
  }

  lemma MovementFromStoredStock(kind: Kind, current: int, quantity: Raw)
    requires 0 <= current < MAX_STOCK
    ensures CalculateMovement(kind, current, quantity) == MovementFrom(kind, current, quantity)
  {
    StoredStockIsNormal(current);
  }

  function MovementFrom(kind: Kind, current: int, quantity: Raw): Result<Change, Error> {
    match kind
    case UnknownKind => Failure(InvalidMovementType)
    case OpeningStock => Increase(current, quantity)
    case StockIn => Increase(current, quantity)
    case StockOut =>
      (match NormalizeStock(quantity)
       case Failure(e) => Failure(e)
       case Success(q) => if q <= 0 then Failure(InvalidQuantity) else NotBelowZero(Change(-q, current - q)))
    case Adjustment =>
      (match NormalizeStock(quantity)
       case Failure(e) => Failure(e)
       case Success(q) => Success(Change(q - current, q)))
    case Correction =>
      (match NormalizeSigned(quantity)
       case Failure(e) => Failure(e)
       case Success(q) => NotBelowZero(Change(q, current + q)))
  }

  function Increase(current: int, quantity: Raw): Result<Change, Error> {
    match NormalizeStock(quantity)
    case Failure(e) => Failure(e)
    case Success(q) => if q <= 0 then Failure(InvalidQuantity) else NotBelowZero(Change(q, current + q))
  }

  function NotBelowZero(change: Change): Result<Change, Error> {
    if change.after < 0 then Failure(InsufficientStock) else Success(change)
  }

  // ----- the store ------------------------------------------------------------------------------------

  datatype ItemKey = ItemKey(user: UserId, product: ProductId)

  datatype Item = Item(stock: int, minimum: int, safety: int, active: bool)

  datatype Movement = Movement(key: ItemKey, kind: Kind, delta: int, before: int, after: int)

  datatype State = State(products: set<ItemKey>, items: map<ItemKey, Item>, ledger: seq<Movement>)

  /** Absent fields are None. AddProduct stands for the product catalogue. */
  datatype Op =
    | AddProduct(key: ItemKey)
    | Create(key: ItemKey, opening: Option<Raw>, minimum: Option<Raw>, safety: Option<Raw>, active: bool)
    | Move(key: ItemKey, kind: Kind, quantity: Raw)
    | Update(key: ItemKey, newMinimum: Option<Raw>, newSafety: Option<Raw>, newActive: Option<bool>)

  const INIT := State({}, map[], [])

  function OrZero(value: Option<Raw>): Raw {
    if value.Some? then value.value else Decimal(0, 0)
  }

  /** Numeric(14, 3) holds up to eleven digits before the point. */
  predicate FitsColumn(thousandths: int) {
    -MAX_STOCK < thousandths < MAX_STOCK
  }

  function DoCreate(s: State, op: Op): (State, Option<Error>)
    requires op.Create?
  {
    if op.key !in s.products then (s, Some(ProductNotFound))
    else if op.key in s.items then (s, Some(ItemExists))
    else
      var opening := NormalizeStock(OrZero(op.opening));
      var minimum, safety := NormalizeThreshold(OrZero(op.minimum)), NormalizeThreshold(OrZero(op.safety));
      if opening.Failure? then (s, Some(opening.error))
      else if minimum.Failure? then (s, Some(minimum.error))
      else if safety.Failure? then (s, Some(safety.error))
      else
        var item := Item(opening.value, minimum.value, safety.value, op.active);
        var row := Movement(op.key, OpeningStock, opening.value, 0, opening.value);
        (s.(items := s.items[op.key := item], ledger := if opening.value > 0 then s.ledger + [row] else s.ledger), None)
  }

  function DoMove(s: State, op: Op): (State, Option<Error>)
    requires op.Move?
  {
    if op.key !in s.products then (s, Some(ProductNotFound))
    else if op.kind == OpeningStock || op.kind == UnknownKind then (s, Some(InvalidMovementType))
    else if op.key !in s.items then (s, Some(ItemNotFound))
    else
      var before := s.items[op.key].stock;
      match CalculateMovement(op.kind, before, op.quantity)
      case Failure(e) => (s, Some(e))
      case Success(change) =>
        if !FitsColumn(change.after) then (s, Some(StoreRefused))
        else
          (s.(items := s.items[op.key := s.items[op.key].(stock := change.after)],
              ledger := s.ledger + [Movement(op.key, op.kind, change.delta, before, change.after)]), None)
  }

  function DoUpdate(s: State, op: Op): (State, Option<Error>)
    requires op.Update?
  {
    if op.key !in s.products then (s, Some(ProductNotFound))
    else if op.key !in s.items then (s, Some(ItemNotFound))
    else
      var item := s.items[op.key];
      var minimum := if op.newMinimum.Some? then NormalizeThreshold(op.newMinimum.value) else Success(item.minimum);
      var safety := if op.newSafety.Some? then NormalizeThreshold(op.newSafety.value) else Success(item.safety);
      if minimum.Failure? then (s, Some(minimum.error))
      else if safety.Failure? then (s, Some(safety.error))
      else if op.newMinimum.None? && op.newSafety.None? && op.newActive.None? then (s, Some(InvalidField))
      else
        var active := if op.newActive.Some? then op.newActive.value else item.active;
        (s.(items := s.items[op.key := Item(item.stock, minimum.value, safety.value, active)]), None)
  }

  function Apply(s: State, op: Op): (State, Option<Error>) {
    match op
    case AddProduct(key) => (s.(products := s.products + {key}), None)
    case Create(_, _, _, _, _) => DoCreate(s, op)
    case Move(_, _, _) => DoMove(s, op)
    case Update(_, _, _, _) => DoUpdate(s, op)
  }

  function Run(s: State, ops: seq<Op>): State
    decreases |ops|
  {
    if ops == [] then s else Run(Apply(s, ops[0]).0, ops[1..])
  }

  // ----- the ledger --------------------------------------------------------------------------------------

  function SumDeltas(ledger: seq<Movement>, key: ItemKey): int {
    if ledger == [] then 0
    else
      var row := ledger[|ledger| - 1];
      SumDeltas(ledger[..|ledger| - 1], key) + if row.key == key then row.delta else 0
  }

  /** What the latest row of an item says is left; nothing before the first row. */
  function Balance(ledger: seq<Movement>, key: ItemKey): int {
    if ledger == [] then 0
    else
      var row := ledger[|ledger| - 1];
      if row.key == key then row.after else Balance(ledger[..|ledger| - 1], key)
  }

  /** Each row starts where the item's previous row ended, adds its delta, and does not go below zero. */
  predicate Chained(ledger: seq<Movement>) {
    ledger == [] ||
    (var row, before := ledger[|ledger| - 1], ledger[..|ledger| - 1];
     && Chained(before)
     && row.before == Balance(before, row.key)
     && row.after == row.before + row.delta
     && 0 <= row.after < MAX_STOCK
     && FitsColumn(row.delta))
  }

  predicate ItemOk(item: Item) {
    0 <= item.stock < MAX_STOCK && 0 <= item.minimum < MAX_STOCK && 0 <= item.safety < MAX_STOCK
  }

  ghost predicate Inv(s: State) {
    && Chained(s.ledger)
    && (forall key :: key in s.items ==> ItemOk(s.items[key]) && s.items[key].stock == Balance(s.ledger, key))
    && (forall row :: row in s.ledger ==> row.key in s.items)
    && s.items.Keys <= s.products
  }

  lemma {:induction false} BalanceIsSum(ledger: seq<Movement>, key: ItemKey)
    requires Chained(ledger)
    ensures Balance(ledger, key) == SumDeltas(ledger, key)
  {
    if ledger != [] { BalanceIsSum(ledger[..|ledger| - 1], key); }
  }

  lemma {:induction false} NoRowsNoBalance(ledger: seq<Movement>, key: ItemKey)
    requires forall row :: row in ledger ==> row.key != key
    ensures Balance(ledger, key) == 0
  {
    if ledger != [] {
      assert ledger[|ledger| - 1] in ledger;
      NoRowsNoBalance(ledger[..|ledger| - 1], key);
    }
  }

  lemma Appended(ledger: seq<Movement>, row: Movement, key: ItemKey)
    ensures Balance(ledger + [row], key) == if row.key == key then row.after else Balance(ledger, key)
    ensures Chained(ledger + [row]) <==>
      (Chained(ledger) && row.before == Balance(ledger, row.key) && row.after == row.before + row.delta
       && 0 <= row.after < MAX_STOCK && FitsColumn(row.delta))
  {
    assert (ledger + [row])[..|ledger|] == ledger;
  }

  /** What a successful movement is, whatever its kind. */
  lemma MovementAddsUp(kind: Kind, current: int, quantity: Raw)
    requires 0 <= current < MAX_STOCK && CalculateMovement(kind, current, quantity).Success?
    ensures var change := CalculateMovement(kind, current, quantity).value;
      change.after == current + change.delta && change.after >= 0 && FitsColumn(change.delta)
  {
    MovementFromStoredStock(kind, current, quantity);
  }

  lemma NewItemKeepsInv(s: State, key: ItemKey, item: Item, ledger: seq<Movement>)
    requires Inv(s) && key in s.products && key !in s.items && ItemOk(item)
    requires ledger
          == if item.stock > 0 then s.ledger + [Movement(key, OpeningStock, item.stock, 0, item.stock)] else s.ledger
    ensures Inv(s.(items := s.items[key := item], ledger := ledger))
  {
    hide Chained, Balance;
    NoRowsNoBalance(s.ledger, key);
    var row := Movement(key, OpeningStock, item.stock, 0, item.stock);
    Appended(s.ledger, row, key);
    forall k ensures Balance(ledger, k) == if k == key then item.stock else Balance(s.ledger, k) {
      Appended(s.ledger, row, k);
    }
  }

  lemma CreateKeepsInv(s: State, op: Op)
    requires Inv(s) && op.Create?
    ensures Inv(DoCreate(s, op).0)
  {
    hide Inv, NormalizeStock, NormalizeThreshold, OrZero;
    var (t, refused) := DoCreate(s, op);
    if refused.None? {
      NewItemKeepsInv(s, op.key, t.items[op.key], t.ledger);
    }
  }

  lemma MoveKeepsInv(s: State, op: Op)
    requires Inv(s) && op.Move?
    ensures Inv(DoMove(s, op).0)
  {
    var (t, refused) := DoMove(s, op);
    if refused.None? {
      var before := s.items[op.key].stock;
      MovementAddsUp(op.kind, before, op.quantity);
      var change := CalculateMovement(op.kind, before, op.quantity).value;
      var row := Movement(op.key, op.kind, change.delta, before, change.after);
      forall key ensures Balance(t.ledger, key) == if key == op.key then change.after else Balance(s.ledger, key) {
        Appended(s.ledger, row, key);
      }
      Appended(s.ledger, row, op.key);
    }
  }

  lemma UpdateKeepsInv(s: State, op: Op)
    requires Inv(s) && op.Update?
    ensures Inv(DoUpdate(s, op).0)
  {
    hide NormalizeStock, NormalizeThreshold;
  }

  lemma {:induction false} HistoriesKeepInv(s: State, ops: seq<Op>)
    requires Inv(s)
    ensures Inv(Run(s, ops))
    decreases |ops|
  {
    if ops != [] {
      if ops[0].Create? { CreateKeepsInv(s, ops[0]); }
      if ops[0].Move? { MoveKeepsInv(s, ops[0]); }
      if ops[0].Update? { UpdateKeepsInv(s, ops[0]); }
      HistoriesKeepInv(Apply(s, ops[0]).0, ops[1..]);
    }
  }

  /** After any history: stock is the sum of the item's deltas, never negative, and the ledger chains. */
  lemma StockIsLedgerSum(ops: seq<Op>, key: ItemKey)
    requires key in Run(INIT, ops).items
    ensures var s := Run(INIT, ops);
      && s.items[key].stock == SumDeltas(s.ledger, key) == Balance(s.ledger, key)
      && 0 <= s.items[key].stock < MAX_STOCK
      && Chained(s.ledger)
  {
    HistoriesKeepInv(INIT, ops);
    BalanceIsSum(Run(INIT, ops).ledger, key);
  }

  /** The same row by row: consecutive rows of one item, with none of its rows in between. */
  lemma {:induction false} ConsecutiveRowsChain(ledger: seq<Movement>, i: nat, j: nat)
    requires Chained(ledger) && i < j < |ledger| && ledger[i].key == ledger[j].key
    requires forall k :: i < k < j ==> ledger[k].key != ledger[j].key
    ensures ledger[j].before == ledger[i].after && ledger[j].after == ledger[j].before + ledger[j].delta
  {
    var n := |ledger| - 1;
    if j < n {
      ConsecutiveRowsChain(ledger[..n], i, j);
    } else {
      BalanceOfLast(ledger[..n], i, ledger[j].key);
    }
  }

  lemma {:induction false} BalanceOfLast(ledger: seq<Movement>, i: nat, key: ItemKey)
    requires i < |ledger| && ledger[i].key == key
    requires forall k :: i < k < |ledger| ==> ledger[k].key != key
    ensures Balance(ledger, key) == ledger[i].after
  {
    if i < |ledger| - 1 { BalanceOfLast(ledger[..|ledger| - 1], i, key); }
  }

  /** The ledger only grows, and another item's stock is never touched. */
  lemma HistoryIsAppendOnly(s: State, op: Op, other: ItemKey)
    ensures s.ledger <= Apply(s, op).0.ledger
    ensures other != op.key ==>
      (other in Apply(s, op).0.items <==> other in s.items)
      && (other in s.items ==> Apply(s, op).0.items[other] == s.items[other])
    ensures Apply(s, op).1.Some? ==> Apply(s, op).0 == s
  {
  }

  /** Taking out what was put in restores the item, whatever the decimals look like. */
  lemma StockInThenOut(s: State, key: ItemKey, quantity: Raw)
    requires Inv(s) && key in s.items && Apply(s, Move(key, StockIn, quantity)).1.None?
    ensures var t := Apply(s, Move(key, StockIn, quantity)).0;
      && t.items[key].stock > s.items[key].stock
      && Apply(t, Move(key, StockOut, quantity)).1.None?
      && Apply(t, Move(key, StockOut, quantity)).0.items == s.items
  {
    var t := Apply(s, Move(key, StockIn, quantity)).0;
    var u := Apply(t, Move(key, StockOut, quantity)).0;
    assert u.items[key] == s.items[key];
    assert u.items == s.items[key := s.items[key]];
  }

  /** An adjustment sets the stock to the given quantity; repeating it changes nothing but adds a zero row. */
  lemma AdjustmentSetsStock(s: State, key: ItemKey, quantity: Raw)
    requires Inv(s) && key in s.items
    ensures var (t, error) := Apply(s, Move(key, Adjustment, quantity));
      && (error.None? <==> NormalizeStock(quantity).Success?)
      && (error.None? ==>
            && t.items[key].stock == NormalizeStock(quantity).value
            && Apply(t, Move(key, Adjustment, quantity)).1.None?
            && Apply(t, Move(key, Adjustment, quantity)).0.items == t.items
            && Apply(t, Move(key, Adjustment, quantity)).0.ledger[|t.ledger|].delta == 0)
  {
    var (t, error) := Apply(s, Move(key, Adjustment, quantity));
    if error.None? {
      assert t.items[key := t.items[key]] == t.items;
    }
  }

  /** A correction is undone by its opposite, and is refused exactly when it leaves the column's range. */
  lemma CorrectionsCancel(s: State, key: ItemKey, m: int, e: int)
    requires Inv(s) && key in s.items && NormalizeSigned(Decimal(m, e)).Success?
    ensures var (t, error) := Apply(s, Move(key, Correction, Decimal(m, e)));
      && (error.None? <==> 0 <= s.items[key].stock + Thousandths(m, e) < MAX_STOCK)
      && (error.None? ==>
            && Apply(t, Move(key, Correction, Decimal(-m, e))).1.None?
            && Apply(t, Move(key, Correction, Decimal(-m, e))).0.items == s.items)
  {
    var (t, error) := Apply(s, Move(key, Correction, Decimal(m, e)));
    assert Thousandths(-m, e) == -Thousandths(m, e);
    if error.None? {
      var u := Apply(t, Move(key, Correction, Decimal(-m, e))).0;
      assert u.items[key] == s.items[key];
      assert u.items == s.items[key := s.items[key]];
    }
  }

  /** A stock-out succeeds exactly for a positive quantity that is there, and never takes more. */
  lemma StockOutIsExact(s: State, key: ItemKey, quantity: Raw)
    requires Inv(s) && key in s.items && NormalizeStock(quantity).Success?
    ensures var (t, error) := Apply(s, Move(key, StockOut, quantity));
      var wanted := NormalizeStock(quantity).value;
      && (error == Some(InvalidQuantity) <==> wanted == 0)
      && (error == Some(InsufficientStock) <==> wanted > s.items[key].stock)
      && (error.None? <==> 0 < wanted <= s.items[key].stock)
      && (error.None? ==> t.items[key].stock == s.items[key].stock - wanted)
  {
    MovementFromStoredStock(StockOut, s.items[key].stock, quantity);
    hide NormalizeStock, CalculateMovement;
  }

  /** Thresholds and activity change without a trace in stock or ledger. */
  lemma UpdatesKeepStock(s: State, op: Op, key: ItemKey)
    requires op.Update? && key in s.items
    ensures var t := Apply(s, op).0;
      t.ledger == s.ledger && key in t.items && t.items[key].stock == s.items[key].stock
  {
  }

  // ----- exact outcomes -----------------------------------------------------------------------------------

  /** Accepted quantities: not negative, at most three places, below a hundred billion. */
  lemma NormalizeAcceptsExactly(value: Raw)
    ensures NormalizeStock(value).Success? <==>
      && value.Decimal? && value.mantissa >= 0 && value.exponent >= -3
      && value.mantissa * Pow10(value.exponent + 3) < 100_000_000_000_000
    ensures NormalizeSigned(value).Success? <==>
      && value.Decimal? && value.mantissa != 0 && value.exponent >= -3
      && -100_000_000_000_000 < value.mantissa * Pow10(value.exponent + 3) < 100_000_000_000_000
    ensures NormalizeStock(value).Success? ==>
      NormalizeStock(value).value == value.mantissa * Pow10(value.exponent + 3)
    ensures NormalizeSigned(value).Success? ==>
      NormalizeSigned(value).value == value.mantissa * Pow10(value.exponent + 3)
    ensures NormalizeStock(value).Failure? ==> NormalizeStock(value) == Failure(InvalidQuantity)
    ensures NormalizeSigned(value).Failure? ==> NormalizeSigned(value) == Failure(InvalidQuantity)
  {
  }

  /** A new item holds the given quantities, zero where none is given, and a positive opening is on record. */
  lemma CreateIsExact(
    s: State, key: ItemKey, opening: Option<Raw>, minimum: Option<Raw>, safety: Option<Raw>, active: bool)
    ensures var (t, error) := Apply(s, Create(key, opening, minimum, safety, active));
      var o, m, f := NormalizeStock(OrZero(opening)), NormalizeStock(OrZero(minimum)), NormalizeStock(OrZero(safety));
      && error == (if key !in s.products then Some(ProductNotFound)
                   else if key in s.items then Some(ItemExists)
                   else if o.Failure? then Some(InvalidQuantity)
                   else if m.Failure? || f.Failure? then Some(InvalidThreshold)
                   else None)
      && (error.Some? ==> t == s)
      && (error.None? ==>
            && t.items == s.items[key := Item(o.value, m.value, f.value, active)]
            && t.ledger == if o.value == 0 then s.ledger
                           else s.ledger + [Movement(key, OpeningStock, o.value, 0, o.value)])
  {
    NormalizeAcceptsExactly(OrZero(opening));
    hide NormalizeStock, OrZero;
  }

  lemma OrZeroIsExact(value: Option<Raw>)
    ensures value.Some? ==> OrZero(value) == value.value
    ensures value.None? ==> NormalizeStock(OrZero(value)) == Success(0)
  {
  }

  /** A threshold update changes the given fields to the given values, keeps the others, and needs at least one. */
  lemma UpdateIsExact(s: State, key: ItemKey, minimum: Option<Raw>, safety: Option<Raw>, active: Option<bool>)
    ensures var (t, error) := Apply(s, Update(key, minimum, safety, active));
      && error == (if key !in s.products then Some(ProductNotFound)
                   else if key !in s.items then Some(ItemNotFound)
                   else if minimum.Some? && NormalizeStock(minimum.value).Failure? then Some(InvalidThreshold)
                   else if safety.Some? && NormalizeStock(safety.value).Failure? then Some(InvalidThreshold)
                   else if minimum.None? && safety.None? && active.None? then Some(InvalidField)
                   else None)
      && (error.Some? ==> t == s)
      && (error.None? ==>
            && t == s.(items := s.items[key := t.items[key]])
            && var was, now := s.items[key], t.items[key];
            && now.stock == was.stock
            && now.minimum == (if minimum.Some? then NormalizeStock(minimum.value).value else was.minimum)
            && now.safety == (if safety.Some? then NormalizeStock(safety.value).value else was.safety)
            && now.active == (if active.Some? then active.value else was.active))
  {
    hide NormalizeStock;
  }

  /** What a movement of each kind does to the stock. */
  function Target(kind: Kind, stock: int, quantity: Raw): Option<int> {
    match kind
    case OpeningStock => None
    case UnknownKind => None
    case StockIn =>
      if NormalizeStock(quantity).Success? && NormalizeStock(quantity).value > 0
      then Some(stock + NormalizeStock(quantity).value) else None
    case StockOut =>
      if NormalizeStock(quantity).Success? && NormalizeStock(quantity).value > 0
      then Some(stock - NormalizeStock(quantity).value) else None
    case Adjustment =>
      if NormalizeStock(quantity).Success? then Some(NormalizeStock(quantity).value) else None
    case Correction =>
      if NormalizeSigned(quantity).Success? then Some(stock + NormalizeSigned(quantity).value) else None
  }

  /**
    A movement goes through exactly when its target is neither negative nor too large; then the stock
    is the target and one row records the way there. Each refusal names its reason and changes nothing.
    */
  lemma MoveIsExact(s: State, key: ItemKey, kind: Kind, quantity: Raw)
    requires Inv(s)
    ensures var (t, error) := Apply(s, Move(key, kind, quantity));
      && (error.Some? ==> t == s)
      && if key !in s.products then error == Some(ProductNotFound)
         else if kind == OpeningStock || kind == UnknownKind then error == Some(InvalidMovementType)
         else if key !in s.items then error == Some(ItemNotFound)
         else
           var before := s.items[key].stock;
           match Target(kind, before, quantity)
           case None => error == Some(InvalidQuantity)
           case Some(target) =>
             if target < 0 then error == Some(InsufficientStock)
             else if target >= 100_000_000_000_000 then error == Some(StoreRefused)
             else
               && error.None?
               && t == s.(
                    items := s.items[key := s.items[key].(stock := target)],
                    ledger := s.ledger + [Movement(key, kind, target - before, before, target)])
  {
    if key in s.items {
      MovementFromStoredStock(kind, s.items[key].stock, quantity);
      NormalizeAcceptsExactly(quantity);
      hide NormalizeStock, NormalizeSigned, CalculateMovement;
    }
  }
}
