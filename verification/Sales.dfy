/**
 Sale rows and the commands that edit an open sale. Money is in cents, quantities in
 thousandths; every stored column is bounded as in the tables.
 */
module Sales {
  import opened Results
  import opened Identifiers
  import opened Decimal
  import Ledger

  datatype PosError =
    | SaleNotFound | SaleNotOpen | SaleAlreadyCompleted | SaleAlreadyCancelled | SaleHasNoItems | SaleItemNotFound
    | ProductNotFound | ProductInactive | DiscountTooLarge | TotalsInconsistent
    | PaymentsRequired | MethodNotFound | MethodInactive | AmountNotPositive | InvalidReceivedAmount
    | InvalidInstallments | ReferenceRequired | PaymentAmountMismatch
    | InventoryNotFound | InsufficientInventory | OperationAlreadyProcessed
    | ValidationError
    | DatabaseError

  datatype SaleStatus = OPEN | COMPLETED | CANCELLED

  datatype Item = Item(id: Uuid, product: Uuid, price: int, quantity: int, discount: int, total: int)

  datatype Sale = Sale(key: string, status: SaleStatus, items: seq<Item>,
                       subtotal: int, discount: int, addition: int, total: int)

  const MAX_COLUMN := Ledger.MAX_COLUMN

  predicate InRange(v: int) {
    -MAX_COLUMN <= v <= MAX_COLUMN
  }

  function LineOf(it: Item): int {
    LineSubtotal(it.price, it.quantity)
  }

  function SubtotalSum(items: seq<Item>): int {
    if items == [] then 0 else SubtotalSum(items[..|items| - 1]) + LineOf(items[|items| - 1])
  }

  function DiscountSum(items: seq<Item>): int {
    if items == [] then 0 else DiscountSum(items[..|items| - 1]) + items[|items| - 1].discount
  }

  function TotalSum(items: seq<Item>): int {
    if items == [] then 0 else TotalSum(items[..|items| - 1]) + items[|items| - 1].total
  }

  /** The column types and checks of a sale_items row. */
  predicate ItemRowAccepted(it: Item) {
    && InRange(it.price) && InRange(it.quantity) && InRange(it.discount) && InRange(it.total)
    && it.price >= 0 && it.quantity > 0 && it.discount >= 0 && it.total >= 0
    && it.discount <= RoundAwayDiv(it.price * it.quantity, 1000)
    && RowTotalConsistent(it.price, it.quantity, it.discount, it.total)
  }

  function PricedItem(id: Uuid, product: Uuid, price: int, quantity: int, discount: int): Result<Item, PosError> {
    var subtotal := LineSubtotal(price, quantity);
    if discount > subtotal then Err(DiscountTooLarge)
    else
      var it := Item(id, product, price, quantity, discount, subtotal - discount);
      if ItemRowAccepted(it) then Ok(it) else Err(DatabaseError)
  }

  /** The sale row with its totals recomputed from all items. */
  function Recalculated(s: Sale, items: seq<Item>): Result<Sale, PosError> {
    var subtotal, discount, total := SubtotalSum(items), DiscountSum(items), TotalSum(items);
    if !InRange(subtotal) || !InRange(discount) || !InRange(total) then Err(DatabaseError)
    else if subtotal < 0 || discount < 0 || total < 0 || discount > subtotal then Err(DatabaseError)
    else if total != subtotal - discount then Err(SaleNotOpen)
    else Ok(s.(items := items, subtotal := subtotal, discount := discount, addition := 0, total := total))
  }

  /** Index of the item with this id. */
  function FindItem(items: seq<Item>, id: Uuid): (r: Option<nat>)
    ensures r.Some? ==> r.value < |items| && items[r.value].id == id
    ensures r.None? ==> forall i :: 0 <= i < |items| ==> items[i].id != id
  {
    if items == [] then None
    else if items[|items| - 1].id == id then Some(|items| - 1)
    else FindItem(items[..|items| - 1], id)
  }

  /** The list is ordered by creation time, that is the start of the inserting
      transaction, so a new row may sort anywhere: `at` says where. */
  function InsertAt(items: seq<Item>, at: nat, it: Item): seq<Item> {
    var k := if at <= |items| then at else |items|;
    items[..k] + [it] + items[k..]
  }

  function AddItem(s: Sale, at: nat, id: Uuid, product: Uuid, price: int, quantity: int, discount: int)
      : Result<Sale, PosError>
  {
    match PricedItem(id, product, price, quantity, discount)
    case Err(e) => Err(e)
    case Ok(it) => Recalculated(s, InsertAt(s.items, at, it))
  }

  /** An update keeps the price the item was added with. */
  function UpdateItem(s: Sale, id: Uuid, quantity: int, discount: int): Result<Sale, PosError> {
    match FindItem(s.items, id)
    case None => Err(SaleItemNotFound)
    case Some(i) =>
      match PricedItem(id, s.items[i].product, s.items[i].price, quantity, discount)
      case Err(e) => Err(e)
      case Ok(it) => Recalculated(s, s.items[i := it])
  }

  function RemoveItem(s: Sale, id: Uuid): Result<Sale, PosError> {
    match FindItem(s.items, id)
    case None => Err(SaleItemNotFound)
    case Some(i) => Recalculated(s, s.items[..i] + s.items[i + 1..])
  }

  /** The checkout's own validation of the totals. */
  predicate LinesConsistent(items: seq<Item>) {
    forall i :: 0 <= i < |items| ==> LineOf(items[i]) - items[i].discount == items[i].total
  }

  predicate ValidTotals(s: Sale) {
    && LinesConsistent(s.items)
    && s.subtotal == SubtotalSum(s.items)
    && s.discount == DiscountSum(s.items)
    && s.total == SubtotalSum(s.items) - DiscountSum(s.items) + s.addition
  }

  // ----- what every edit keeps -----

  predicate LineOk(it: Item) {
    && 0 <= it.price <= MAX_COLUMN && 0 < it.quantity <= MAX_COLUMN
    && 0 <= it.discount <= LineOf(it)
    && it.total == LineOf(it) - it.discount
    && it.total <= MAX_COLUMN
  }

  predicate LinesOk(items: seq<Item>) {
    && (forall i :: 0 <= i < |items| ==> LineOk(items[i]))
    && (forall i, j :: 0 <= i < j < |items| ==> items[i].id != items[j].id)
  }

  predicate SaleOk(s: Sale) {
    && LinesOk(s.items)
    && s.subtotal == SubtotalSum(s.items)
    && s.discount == DiscountSum(s.items)
    && s.addition == 0
    && s.total == s.subtotal - s.discount
    && 0 <= s.discount <= s.subtotal <= MAX_COLUMN
  }

  function NewSale(key: string): Sale {
    Sale(key, OPEN, [], 0, 0, 0, 0)
  }

  /** A price and quantity within their columns are refused only for a discount above
      the line, for a full discount of a line that ends in half a cent, or when the
      line's total overflows its column. */
  lemma PricedItemAcceptedIff(id: Uuid, product: Uuid, price: int, quantity: int, discount: int)
    requires 0 <= price <= MAX_COLUMN && 0 < quantity <= MAX_COLUMN && 0 <= discount <= MAX_COLUMN
    ensures var line := LineSubtotal(price, quantity);
      PricedItem(id, product, price, quantity, discount).Ok?
      <==> discount <= line && line - discount <= MAX_COLUMN && !(discount == line && price * quantity % 1000 == 500)
  {
    var line := LineSubtotal(price, quantity);
    if discount <= line {
      RowCheckAcceptsIff(price, quantity, discount);
      LineIsSqlRound(price, quantity);
    }
  }

  lemma LineIsSqlRound(price: int, quantity: int)
    requires price >= 0 && quantity >= 0
    ensures LineSubtotal(price, quantity) == RoundAwayDiv(price * quantity, 1000)
  {
    MulMono(0, price, quantity);
    RoundDivHalfUp(price * quantity, 1000);
  }

  lemma PricedItemIsOk(id: Uuid, product: Uuid, price: int, quantity: int, discount: int)
    requires PricedItem(id, product, price, quantity, discount).Ok?
    ensures LineOk(PricedItem(id, product, price, quantity, discount).value)
    ensures PricedItem(id, product, price, quantity, discount).value.id == id
  {
  }

  lemma {:induction false} TotalsAddUp(items: seq<Item>)
    requires LinesConsistent(items)
    ensures TotalSum(items) == SubtotalSum(items) - DiscountSum(items)
  {
    if items != [] {
      TotalsAddUp(items[..|items| - 1]);
    }
  }

  lemma RecalculatedIsOk(s: Sale, items: seq<Item>)
    requires LinesOk(items)
    ensures Recalculated(s, items).Ok? ==> SaleOk(Recalculated(s, items).value)
    ensures Recalculated(s, items) != Err(SaleNotOpen)
  {
    TotalsAddUp(items);
  }

  lemma {:induction false} SumsAreOrdered(items: seq<Item>)
    requires forall i :: 0 <= i < |items| ==> LineOk(items[i])
    ensures 0 <= DiscountSum(items) <= SubtotalSum(items)
  {
    if items != [] {
      SumsAreOrdered(items[..|items| - 1]);
    }
  }

  /** Recalculation of good lines fails only when a sum leaves its column. */
  lemma RecalculatedAcceptedIff(s: Sale, items: seq<Item>)
    requires forall i :: 0 <= i < |items| ==> LineOk(items[i])
    ensures Recalculated(s, items).Ok? <==> SubtotalSum(items) <= MAX_COLUMN
  {
    SumsAreOrdered(items);
    TotalsAddUp(items);
  }

  /** What a successful edit leaves: the same sale with good lines and fresh totals. */
  predicate EditOf(s: Sale, t: Sale) {
    SaleOk(t) && t.key == s.key && t.status == s.status
  }

  /** Where an element of a list with an insertion came from. */
  lemma InsertAtElements(items: seq<Item>, at: nat, it: Item, i: nat)
    requires i <= |items|
    ensures var k := if at <= |items| then at else |items|;
      InsertAt(items, at, it)[i] == if i < k then items[i] else if i == k then it else items[i - 1]
  {
  }

  lemma InsertAtKeepsLines(items: seq<Item>, at: nat, it: Item)
    requires LinesOk(items) && LineOk(it) && FindItem(items, it.id).None?
    ensures LinesOk(InsertAt(items, at, it)) && it in InsertAt(items, at, it)
    ensures forall x :: x in items ==> x in InsertAt(items, at, it)
  {
    var r, k := InsertAt(items, at, it), if at <= |items| then at else |items|;
    forall i | 0 <= i < |r| ensures LineOk(r[i]) {
      InsertAtElements(items, at, it, i);
    }
    forall i, j | 0 <= i < j < |r| ensures r[i].id != r[j].id {
      InsertAtElements(items, at, it, i);
      InsertAtElements(items, at, it, j);
    }
    InsertAtElements(items, at, it, k);
    forall x | x in items ensures x in r {
      var i :| 0 <= i < |items| && items[i] == x;
      InsertAtElements(items, at, it, if i < k then i else i + 1);
    }
  }

  lemma AddItemKeepsSaleOk(s: Sale, at: nat, id: Uuid, product: Uuid, price: int, quantity: int, discount: int)
    requires SaleOk(s) && FindItem(s.items, id).None?
    requires AddItem(s, at, id, product, price, quantity, discount).Ok?
    ensures var t := AddItem(s, at, id, product, price, quantity, discount).value;
      && EditOf(s, t) && |t.items| == |s.items| + 1 && (forall x :: x in s.items ==> x in t.items)
      && Item(id, product, price, quantity, discount, LineSubtotal(price, quantity) - discount) in t.items
  {
    var it := PricedItem(id, product, price, quantity, discount).value;
    PricedItemIsOk(id, product, price, quantity, discount);
    InsertAtKeepsLines(s.items, at, it);
    RecalculatedIsOk(s, InsertAt(s.items, at, it));
  }

  lemma UpdateItemKeepsSaleOk(s: Sale, id: Uuid, quantity: int, discount: int)
    requires SaleOk(s) && UpdateItem(s, id, quantity, discount).Ok?
    ensures var t := UpdateItem(s, id, quantity, discount).value;
      EditOf(s, t) && |t.items| == |s.items| && forall i :: 0 <= i < |t.items| ==>
        && t.items[i].id == s.items[i].id && t.items[i].product == s.items[i].product
        && t.items[i].price == s.items[i].price
        && (s.items[i].id != id ==> t.items[i] == s.items[i])
        && (s.items[i].id == id ==>
              && t.items[i].quantity == quantity && t.items[i].discount == discount
              && t.items[i].total == LineSubtotal(s.items[i].price, quantity) - discount)
  {
    var i := FindItem(s.items, id).value;
    PricedItemIsOk(id, s.items[i].product, s.items[i].price, quantity, discount);
    RecalculatedIsOk(s, s.items[i := PricedItem(id, s.items[i].product, s.items[i].price, quantity, discount).value]);
  }

  lemma RemovalKeepsLines(items: seq<Item>, i: nat)
    requires LinesOk(items) && i < |items|
    ensures var r := items[..i] + items[i + 1..];
      LinesOk(r) && (forall x :: x in r ==> x.id != items[i].id)
      && (forall x :: x in items && x.id != items[i].id ==> x in r)
  {
    var r := items[..i] + items[i + 1..];
    assert forall k :: 0 <= k < |r| ==> r[k] == items[if k < i then k else k + 1];
    forall x | x in items && x.id != items[i].id ensures x in r {
      var k :| 0 <= k < |items| && items[k] == x;
      assert r[if k < i then k else k - 1] == x;
    }
  }

  lemma RemoveItemKeepsSaleOk(s: Sale, id: Uuid)
    requires SaleOk(s) && RemoveItem(s, id).Ok?
    ensures var t := RemoveItem(s, id).value;
      && EditOf(s, t) && (forall x :: x in t.items ==> x.id != id)
      && (forall x :: x in s.items && x.id != id ==> x in t.items)
  {
    var i := FindItem(s.items, id).value;
    RemovalKeepsLines(s.items, i);
    RecalculatedIsOk(s, s.items[..i] + s.items[i + 1..]);
  }

  /** Whatever the sales commands leave passes the checkout's validation. */
  lemma SaleOkPassesCheckout(s: Sale)
    requires SaleOk(s)
    ensures ValidTotals(s) && s.total >= 0
  {
    forall i | 0 <= i < |s.items| ensures LineOf(s.items[i]) - s.items[i].discount == s.items[i].total {
      assert LineOk(s.items[i]);
    }
  }
}
