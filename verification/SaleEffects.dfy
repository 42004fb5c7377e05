/**
 What each command of the point of sale needs and what it does, told by its inputs and the
 tables before and after: lines and totals of a sale, payments, and the direction of stock.
 */
module SaleEffects {
  import opened Results
  import opened Identifiers
  import opened Sales
  import opened Payments
  import opened StockDemand
  import opened Pos
  import Decimal
  import DecimalText
  import Ledger

  // ----- lines -----

  /** Cents of a price times thousandths of a quantity, half a cent rounded up. */
  function HalfUp(price: int, quantity: int): int {
    (2 * price * quantity + 1000) / 2000
  }

  lemma LineIsHalfUp(price: int, quantity: int)
    requires price >= 0 && quantity >= 0
    ensures Decimal.LineSubtotal(price, quantity) == HalfUp(price, quantity)
  {
    Decimal.MulMono(0, price, quantity);
    Decimal.RoundDivHalfUp(price * quantity, 1000);
    assert 2 * (price * quantity) == 2 * price * quantity;
  }

  /** The line the columns can hold: the discount at most the line, and not the whole of one
      that ends in half a cent. */
  predicate LineFits(price: int, quantity: int, discount: int) {
    var line := HalfUp(price, quantity);
    && quantity <= MAX_COLUMN && discount <= line && line - discount <= MAX_COLUMN && discount <= MAX_COLUMN
    && !(discount == line && price * quantity % 1000 == 500)
  }

  function NewLine(id: Uuid, product: Uuid, price: int, quantity: int, discount: int): Item {
    Item(id, product, price, quantity, discount, HalfUp(price, quantity) - discount)
  }

  lemma PricedIff(id: Uuid, product: Uuid, price: int, quantity: int, discount: int)
    requires 0 <= price <= MAX_COLUMN && 0 < quantity && 0 <= discount
    ensures var r := PricedItem(id, product, price, quantity, discount);
      && (r.Ok? <==> LineFits(price, quantity, discount))
      && (r.Ok? ==> r.value == NewLine(id, product, price, quantity, discount) && LineOk(r.value))
      && (r == Err(DiscountTooLarge) <==> discount > HalfUp(price, quantity))
  {
    LineIsHalfUp(price, quantity);
    if quantity <= MAX_COLUMN && discount <= MAX_COLUMN {
      PricedItemAcceptedIff(id, product, price, quantity, discount);
    }
  }

  // ----- sums -----

  lemma {:induction false} SumsOfReplaced(items: seq<Item>, i: nat, it: Item)
    requires i < |items|
    ensures SubtotalSum(items[i := it]) == SubtotalSum(items) - LineOf(items[i]) + LineOf(it)
    ensures DiscountSum(items[i := it]) == DiscountSum(items) - items[i].discount + it.discount
  {
    var n := |items| - 1;
    if i < n {
      assert items[i := it][..n] == items[..n][i := it];
      SumsOfReplaced(items[..n], i, it);
    } else {
      assert items[i := it][..n] == items[..n];
    }
  }

  lemma {:induction false} SumsOfJoined(a: seq<Item>, b: seq<Item>)
    ensures SubtotalSum(a + b) == SubtotalSum(a) + SubtotalSum(b)
    ensures DiscountSum(a + b) == DiscountSum(a) + DiscountSum(b)
  {
    if b == [] {
      assert a + b == a;
    } else {
      var n := |b| - 1;
      SumsOfJoined(a, b[..n]);
      assert (a + b)[..|a + b| - 1] == a + b[..n];
    }
  }

  lemma SumsOfExtended(items: seq<Item>, it: Item)
    ensures SubtotalSum(items + [it]) == SubtotalSum(items) + LineOf(it)
    ensures DiscountSum(items + [it]) == DiscountSum(items) + it.discount
  {
    assert (items + [it])[..|items|] == items;
  }

  lemma SumsOfInserted(items: seq<Item>, at: nat, it: Item)
    ensures SubtotalSum(InsertAt(items, at, it)) == SubtotalSum(items) + LineOf(it)
    ensures DiscountSum(InsertAt(items, at, it)) == DiscountSum(items) + it.discount
  {
    var k := if at <= |items| then at else |items|;
    var front, back := items[..k], items[k..];
    assert items == front + back;
    SumsOfExtended(front, it);
    SumsOfJoined(front + [it], back);
    SumsOfJoined(front, back);
  }

  lemma SplitAround(items: seq<Item>, i: nat)
    requires i < |items|
    ensures items == (items[..i] + [items[i]]) + items[i + 1..]
  {
  }

  lemma SumsOfRemoved(items: seq<Item>, i: nat)
    requires i < |items|
    ensures SubtotalSum(items[..i] + items[i + 1..]) == SubtotalSum(items) - LineOf(items[i])
    ensures DiscountSum(items[..i] + items[i + 1..]) == DiscountSum(items) - items[i].discount
  {
    var front, back, it := items[..i], items[i + 1..], items[i];
    assert items == (front + [it]) + back by { SplitAround(items, i); }
    SumsOfExtended(front, it);
    SumsOfJoined(front + [it], back);
    SumsOfJoined(front, back);
  }

  // ----- editing a sale -----

  /** The totals of a sale move by these amounts and nothing else of its row but the items does. */
  predicate TotalsMove(s: Sale, t: Sale, subtotal: int, discount: int) {
    && t.key == s.key && t.status == s.status && t.addition == 0
    && t.subtotal == s.subtotal + subtotal && t.discount == s.discount + discount
    && t.total == s.total + subtotal - discount
  }

  predicate HasItem(s: Sale, id: Uuid) {
    exists i :: 0 <= i < |s.items| && s.items[i].id == id
  }

  /** An update goes through exactly for an item the sale has, if the new line fits and the
      subtotal stays within its column. */
  lemma UpdateItemIff(s: Sale, id: Uuid, i: nat, quantity: int, discount: int)
    requires SaleOk(s) && i < |s.items| && s.items[i].id == id && 0 < quantity && 0 <= discount
    ensures var old0, line := s.items[i], HalfUp(s.items[i].price, quantity);
      Sales.UpdateItem(s, id, quantity, discount).Ok?
      <==> LineFits(old0.price, quantity, discount)
           && s.subtotal - HalfUp(old0.price, old0.quantity) + line <= MAX_COLUMN
    ensures Sales.UpdateItem(s, id, quantity, discount) == Err(DiscountTooLarge)
       <==> discount > HalfUp(s.items[i].price, quantity)
  {
    var it := s.items[i];
    assert LineOk(it);
    PricedIff(id, it.product, it.price, quantity, discount);
    LineIsHalfUp(it.price, it.quantity);
    if LineFits(it.price, quantity, discount) {
      var line := NewLine(id, it.product, it.price, quantity, discount);
      LineIsHalfUp(it.price, quantity);
      SumsOfReplaced(s.items, i, line);
      RecalculatedAcceptedIff(s, s.items[i := line]);
    }
  }

  /** A successful update gives the named item the quantity and discount asked for and the
      line of its old price, and leaves every other item as it was. */
  lemma UpdateItemEffect(s: Sale, id: Uuid, i: nat, quantity: int, discount: int)
    requires SaleOk(s) && i < |s.items| && s.items[i].id == id && 0 < quantity && 0 <= discount
    requires Sales.UpdateItem(s, id, quantity, discount).Ok?
    ensures var t, was := Sales.UpdateItem(s, id, quantity, discount).value, s.items[i];
      && |t.items| == |s.items|
      && (forall k :: 0 <= k < |s.items| && k != i ==> t.items[k] == s.items[k])
      && t.items[i] == Item(id, was.product, was.price, quantity, discount, HalfUp(was.price, quantity) - discount)
      && TotalsMove(s, t, HalfUp(was.price, quantity) - HalfUp(was.price, was.quantity), discount - was.discount)
  {
    var was := s.items[i];
    assert LineOk(was);
    PricedIff(id, was.product, was.price, quantity, discount);
    LineIsHalfUp(was.price, was.quantity);
    LineIsHalfUp(was.price, quantity);
    var line := NewLine(id, was.product, was.price, quantity, discount);
    SumsOfReplaced(s.items, i, line);
    UpdateItemKeepsSaleOk(s, id, quantity, discount);
  }

  /** An item is added exactly if its line fits and the subtotal stays within its column. */
  lemma AddItemIff(s: Sale, at: nat, id: Uuid, product: Uuid, price: int, quantity: int, discount: int)
    requires SaleOk(s) && !HasItem(s, id) && 0 <= price <= MAX_COLUMN && 0 < quantity && 0 <= discount
    ensures Sales.AddItem(s, at, id, product, price, quantity, discount).Ok?
       <==> LineFits(price, quantity, discount) && s.subtotal + HalfUp(price, quantity) <= MAX_COLUMN
    ensures Sales.AddItem(s, at, id, product, price, quantity, discount) == Err(DiscountTooLarge)
       <==> discount > HalfUp(price, quantity)
  {
    PricedIff(id, product, price, quantity, discount);
    if LineFits(price, quantity, discount) {
      var line := NewLine(id, product, price, quantity, discount);
      LineIsHalfUp(price, quantity);
      SumsOfInserted(s.items, at, line);
      InsertAtKeepsLines(s.items, at, line);
      RecalculatedAcceptedIff(s, InsertAt(s.items, at, line));
    }
  }

  /** The new line stands where it sorts, between the old ones in their order. */
  lemma AddItemEffect(s: Sale, at: nat, id: Uuid, product: Uuid, price: int, quantity: int, discount: int)
    requires SaleOk(s) && !HasItem(s, id) && 0 <= price <= MAX_COLUMN && 0 < quantity && 0 <= discount
    requires Sales.AddItem(s, at, id, product, price, quantity, discount).Ok?
    ensures var t := Sales.AddItem(s, at, id, product, price, quantity, discount).value;
      var k := if at <= |s.items| then at else |s.items|;
      && |t.items| == |s.items| + 1 && t.items[..k] == s.items[..k] && t.items[k + 1..] == s.items[k..]
      && t.items[k] == Item(id, product, price, quantity, discount, HalfUp(price, quantity) - discount)
      && TotalsMove(s, t, HalfUp(price, quantity), discount)
  {
    PricedIff(id, product, price, quantity, discount);
    LineIsHalfUp(price, quantity);
    SumsOfInserted(s.items, at, NewLine(id, product, price, quantity, discount));
    AddItemKeepsSaleOk(s, at, id, product, price, quantity, discount);
  }

  /** Any item the sale has can be removed. */
  lemma RemoveItemAccepted(s: Sale, id: Uuid, i: nat)
    requires SaleOk(s) && i < |s.items| && s.items[i].id == id
    ensures Sales.RemoveItem(s, id) == Recalculated(s, s.items[..i] + s.items[i + 1..])
    ensures Sales.RemoveItem(s, id).Ok?
  {
    var rest := s.items[..i] + s.items[i + 1..];
    assert FindItem(s.items, id) == Some(i);
    assert LineOk(s.items[i]);
    SumsOfRemoved(s.items, i);
    assert LinesOk(rest) by { RemovalKeepsLines(s.items, i); }
    RecalculatedAcceptedIff(s, rest);
  }

  /** The others stay in their order, and the totals fall by its amounts. */
  lemma RemoveItemEffect(s: Sale, id: Uuid, i: nat)
    requires SaleOk(s) && i < |s.items| && s.items[i].id == id
    ensures Sales.RemoveItem(s, id).Ok?
    ensures var t, was := Sales.RemoveItem(s, id).value, s.items[i];
      t.items == s.items[..i] + s.items[i + 1..]
      && TotalsMove(s, t, -HalfUp(was.price, was.quantity), -was.discount)
  {
    RemoveItemAccepted(s, id, i);
    assert LineOk(s.items[i]);
    LineIsHalfUp(s.items[i].price, s.items[i].quantity);
    SumsOfRemoved(s.items, i);
    RemoveItemKeepsSaleOk(s, id);
  }

  /** An item the sale does not have is neither updated nor removed. */
  lemma MissingItemIsReported(s: Sale, id: Uuid, quantity: int, discount: int)
    requires !HasItem(s, id)
    ensures Sales.UpdateItem(s, id, quantity, discount) == Err(SaleItemNotFound) == Sales.RemoveItem(s, id)
  {
  }

  // ----- the sales commands -----

  /** Only this sale's row changes. */
  predicate OnlySale(before: Db, after: Db, sale: Uuid) {
    && after == before.(sales := after.sales) && after.sales.Keys == before.sales.Keys + {sale}
    && forall s :: s in before.sales && s != sale ==> after.sales[s] == before.sales[s]
  }

  /** A new sale is open, empty and without amounts, under its trimmed key. */
  lemma CreateSaleEffect(db: Db, id: Uuid, rawKey: string)
    ensures var r, key := CreateSale(db, id, rawKey), DecimalText.TrimSpace(rawKey);
      && (r.Ok? <==> key != "" && (KeyUsed(db.sales, key) || (|key| <= 255 && id !in db.sales)))
      && (r.Ok? && KeyUsed(db.sales, key) ==> r.value == db)
      && (r.Ok? && !KeyUsed(db.sales, key) ==>
            OnlySale(db, r.value, id) && id !in db.sales
            && r.value.sales[id] == Sale(key, OPEN, [], 0, 0, 0, 0))
  {
  }

  /** What adding needs of the tables before the line is looked at. */
  predicate MayAdd(db: Db, sale: Uuid, item: Uuid, product: Uuid) {
    && sale in db.sales && db.sales[sale].status == OPEN
    && product in db.products && db.products[product].active && !ItemIdTaken(db.sales, item)
  }

  lemma AddToSaleIs(db: Db, sale: Uuid, at: nat, item: Uuid, product: Uuid, quantity: int, discount: int)
    ensures var r := AddToSale(db, sale, at, item, product, quantity, discount);
      && (r.Ok? ==> MayAdd(db, sale, item, product))
      && (MayAdd(db, sale, item, product) ==>
            var price := db.products[product].price;
            var added := Sales.AddItem(db.sales[sale], at, item, product, price, quantity, discount);
            && (r.Ok? <==> added.Ok?) && (r.Ok? ==> OnlySale(db, r.value, sale) && Ok(r.value.sales[sale]) == added))
  {
  }

  lemma FreeIdIsNew(db: Db, sale: Uuid, item: Uuid, product: Uuid)
    requires MayAdd(db, sale, item, product)
    ensures !HasItem(db.sales[sale], item)
  {
    assert FindItem(db.sales[sale].items, item).None?;
  }

  /** An item is added exactly to an open sale, for an active product, at the price the
      product has now, if the line fits and the subtotal stays within its column. */
  lemma AddToSaleIff(db: Db, sale: Uuid, at: nat, item: Uuid, product: Uuid, quantity: int, discount: int)
    requires Inv(db) && 0 < quantity && 0 <= discount
    ensures AddToSale(db, sale, at, item, product, quantity, discount).Ok? <==>
      && MayAdd(db, sale, item, product) && LineFits(db.products[product].price, quantity, discount)
      && db.sales[sale].subtotal + HalfUp(db.products[product].price, quantity) <= MAX_COLUMN
  {
    AddToSaleIs(db, sale, at, item, product, quantity, discount);
    if MayAdd(db, sale, item, product) {
      FreeIdIsNew(db, sale, item, product);
      assert SaleOk(db.sales[sale]) && ProductRowOk(db.products[product]);
      AddItemIff(db.sales[sale], at, item, product, db.products[product].price, quantity, discount);
    }
  }

  /** The sale then has the line at that price besides its old ones; no other row changes. */
  lemma AddToSaleEffect(db: Db, sale: Uuid, at: nat, item: Uuid, product: Uuid, quantity: int, discount: int)
    requires Inv(db) && 0 < quantity && 0 <= discount
    requires AddToSale(db, sale, at, item, product, quantity, discount).Ok?
    ensures sale in db.sales && product in db.products
    ensures var after, s, price := AddToSale(db, sale, at, item, product, quantity, discount).value, db.sales[sale],
                                   db.products[product].price;
      var k := if at <= |s.items| then at else |s.items|;
      && OnlySale(db, after, sale) && |after.sales[sale].items| == |s.items| + 1
      && after.sales[sale].items[k]
         == Item(item, product, price, quantity, discount, HalfUp(price, quantity) - discount)
      && after.sales[sale].items[..k] == s.items[..k] && after.sales[sale].items[k + 1..] == s.items[k..]
      && TotalsMove(s, after.sales[sale], HalfUp(price, quantity), discount)
  {
    AddToSaleIs(db, sale, at, item, product, quantity, discount);
    FreeIdIsNew(db, sale, item, product);
    assert SaleOk(db.sales[sale]) && ProductRowOk(db.products[product]);
    AddItemEffect(db.sales[sale], at, item, product, db.products[product].price, quantity, discount);
  }

  /** Updates and removals work on open sales only, exactly when the sale's own rules allow. */
  lemma EditSaleIff(db: Db, sale: Uuid, item: Uuid, quantity: int, discount: int)
    ensures var r := UpdateInSale(db, sale, item, quantity, discount);
      && (r.Ok? <==> sale in db.sales && db.sales[sale].status == OPEN
                     && Sales.UpdateItem(db.sales[sale], item, quantity, discount).Ok?)
      && (r.Ok? ==> OnlySale(db, r.value, sale)
                    && Ok(r.value.sales[sale]) == Sales.UpdateItem(db.sales[sale], item, quantity, discount))
    ensures var r := RemoveFromSale(db, sale, item);
      && (r.Ok? <==> sale in db.sales && db.sales[sale].status == OPEN
                     && Sales.RemoveItem(db.sales[sale], item).Ok?)
      && (r.Ok? ==> OnlySale(db, r.value, sale) && Ok(r.value.sales[sale]) == Sales.RemoveItem(db.sales[sale], item))
  {
  }

  /** Only an open sale is cancelled; it keeps everything but its status. */
  lemma CancelEffect(db: Db, sale: Uuid)
    ensures var r := CancelSale(db, sale);
      && (r.Ok? <==> sale in db.sales && db.sales[sale].status == OPEN)
      && (r.Ok? ==> OnlySale(db, r.value, sale)
                    && r.value.sales[sale] == db.sales[sale].(status := CANCELLED))
      && (sale !in db.sales ==> r == Err(SaleNotFound))
      && (sale in db.sales && db.sales[sale].status == COMPLETED ==> r == Err(SaleNotOpen))
      && (sale in db.sales && db.sales[sale].status == CANCELLED ==> r == Err(SaleAlreadyCancelled))
  {
  }

  /** A cancelled sale takes no item, no edit, no second cancellation and no checkout in any
      later state. */
  lemma CancelledForGood(db: Db, sale: Uuid, ops: seq<Op>, at: nat, item: Uuid, product: Uuid, quantity: int,
                         discount: int, inputs: seq<PaymentInput>)
    requires Inv(db) && CancelSale(db, sale).Ok? && InputError(inputs).None?
    ensures var later := Exec(CancelSale(db, sale).value, ops);
      && CancelSale(later, sale) == Err(SaleAlreadyCancelled) && CheckoutSale(later, sale, inputs) == Err(SaleNotOpen)
      && AddToSale(later, sale, at, item, product, quantity, discount) == Err(SaleNotOpen)
      && UpdateInSale(later, sale, item, quantity, discount) == Err(SaleNotOpen)
      && RemoveFromSale(later, sale, item) == Err(SaleNotOpen)
  {
    var after := CancelSale(db, sale).value;
    CancelEffect(db, sale);
    EditKeepsInv(db, Cancel(sale));
    ClosedSaleFrozen(after, ops, sale);
  }

  // ----- stock -----

  /** Which way a movement goes. */
  function Direction(kind: Ledger.MovementKind): int {
    match kind
    case PURCHASE => 1
    case ADJUSTMENT_IN => 1
    case SALE => -1
    case ADJUSTMENT_OUT => -1
  }

  /** Stock moves by exactly the quantity in the direction of the kind, recorded by one
      movement that tells both levels, if stock covers it, the columns hold it and the
      reference is new. */
  lemma PostEffect(b: Ledger.Book, p: Uuid, kind: Ledger.MovementKind, qty: int, refType: string, refId: Uuid)
    requires Ledger.Balanced(b) && qty > 0
    ensures var r, was := Ledger.Post(b, p, kind, qty, refType, refId), Ledger.StockOf(b, p);
      var now := was + Direction(kind) * qty;
      && (r.Ok? <==> 0 <= now <= MAX_COLUMN && (Direction(kind) < 0 ==> p in b.stock) && |refType| <= 30
                     && !Ledger.ReferenceTaken(b.movements, p, kind, refType, refId))
      && (r.Ok? ==> r.value.stock == b.stock[p := now]
                    && r.value.movements == b.movements + [Ledger.Movement(p, kind, qty, was, now, refType, refId)])
      && (Direction(kind) < 0 && p !in b.stock ==> r == Err(Ledger.StockNotFound))
      && (Direction(kind) < 0 && p in b.stock && was < qty ==> r == Err(Ledger.InsufficientStock))
  {
  }

  /** An entry adds to the product's stock; an adjustment adds or takes away as it says. */
  lemma StockCommandEffect(db: Db, product: Uuid, inward: bool, quantity: Quantity, refType: string, refId: Uuid)
    requires Inv(db)
    ensures StockMoved(db, Perform(db, CreateEntry(product, quantity, refType, refId)), product, Ledger.PURCHASE,
                       quantity, refType, refId)
    ensures StockMoved(db, Perform(db, CreateAdjustment(product, inward, quantity, refType, refId)), product,
                       if inward then Ledger.ADJUSTMENT_IN else Ledger.ADJUSTMENT_OUT,
                       (if inward then 1 else -1) * (quantity as int), refType, refId)
  {
    var kind := if inward then Ledger.ADJUSTMENT_IN else Ledger.ADJUSTMENT_OUT;
    var trimmed := DecimalText.TrimSpace(refType);
    PostEffect(db.book, product, Ledger.PURCHASE, quantity, trimmed, refId);
    PostEffect(db.book, product, kind, quantity, trimmed, refId);
  }

  /** The stock of an existing product changes by `delta`, with a movement of this kind, or
      the command is refused because the result would be out of bounds or the reference blank,
      too long or used. */
  predicate StockMoved(db: Db, r: Outcome, product: Uuid, kind: Ledger.MovementKind, delta: int, rawRefType: string,
                       refId: Uuid)
  {
    var refType, was := DecimalText.TrimSpace(rawRefType), Ledger.StockOf(db.book, product);
    && (r.Ok? <==> && product in db.products && 0 < |refType| <= 30 && 0 <= was + delta <= MAX_COLUMN
                   && (delta < 0 ==> product in db.book.stock)
                   && !Ledger.ReferenceTaken(db.book.movements, product, kind, refType, refId))
    && (r.Ok? ==>
          var size := if delta < 0 then -delta else delta;
          var m := Ledger.Movement(product, kind, size, was, was + delta, refType, refId);
          r.value == db.(book := Ledger.Book(db.book.stock[product := was + delta], db.book.movements + [m])))
  }

  /** Taking out what was put in restores the stock. */
  lemma InThenOutRestores(db: Db, product: Uuid, quantity: Quantity, refType: string, refId: Uuid)
    requires Inv(db) && product in db.book.stock
    requires Perform(db, CreateAdjustment(product, true, quantity, refType, refId)).Ok?
    requires !Ledger.ReferenceTaken(db.book.movements, product, Ledger.ADJUSTMENT_OUT, DecimalText.TrimSpace(refType),
                                    refId)
    ensures var filled := Perform(db, CreateAdjustment(product, true, quantity, refType, refId)).value;
      var emptied := Perform(filled, CreateAdjustment(product, false, quantity, refType, refId));
      emptied.Ok? && emptied.value.book.stock == db.book.stock
  {
    var filled := Perform(db, CreateAdjustment(product, true, quantity, refType, refId)).value;
    MoveStockKeepsInv(db, product, Ledger.ADJUSTMENT_IN, quantity, refType, refId);
    StockCommandEffect(db, product, true, quantity, refType, refId);
    StockCommandEffect(filled, product, false, quantity, refType, refId);
    var ms, m := db.book.movements, filled.book.movements[|db.book.movements|];
    assert filled.book.movements == ms + [m];
  }

  // ----- payments -----

  /** What was received, told by the request alone: the request's amount, or the payment's
      when it names none and change is given. */
  function ReceivedFor(m: Method, input: PaymentInput): Option<int> {
    if input.received.Some? then Some(input.received.value)
    else if m.allowsChange then Some(input.amount) else None
  }

  /** Enough was received, and exactly enough where no change is given. */
  predicate ReceivedSuffices(m: Method, input: PaymentInput) {
    input.received.Some? ==>
      if m.allowsChange then input.received.value >= input.amount else input.received.value == input.amount
  }

  /** The low sixteen bits of the requested count, one if there is none. */
  function CountAsked(input: PaymentInput): int {
    if input.installments.None? then 1 else input.installments.value % 65536
  }

  predicate CountAllowed(m: Method, input: PaymentInput) {
    && (input.installments.Some? ==> input.installments.value <= 32767) && CountAsked(input) <= 32767
    && if m.allowsInstallments then 1 <= CountAsked(input) <= m.maxInstallments else CountAsked(input) == 1
  }

  /** What is recorded is what was asked for, with the change that is due. */
  predicate Recorded(m: Method, input: PaymentInput, p: Settled) {
    && p.methodId == input.methodId && p.amount == input.amount && p.received == ReceivedFor(m, input)
    && p.change == (if m.allowsChange then Some(ReceivedFor(m, input).value - input.amount) else None)
    && p.installments == CountAsked(input)
    && (p.reference.Some? <==> input.reference.Some?)
    && (p.reference.Some? ==> p.reference.value == DecimalText.TrimSpace(input.reference.value))
  }

  /** Requests are taken up exactly if no count is too large for its column and no reference
      is blank. */
  lemma {:induction false} RequestsTakenUpIff(inputs: seq<PaymentInput>)
    ensures InputError(inputs).None? <==>
      forall i :: 0 <= i < |inputs| ==>
        && (inputs[i].installments.Some? ==> inputs[i].installments.value <= 32767)
        && (inputs[i].reference.Some? ==> DecimalText.TrimSpace(inputs[i].reference.value) != "")
  {
    if inputs != [] {
      var rest := inputs[1..];
      RequestsTakenUpIff(rest);
      assert forall i :: 0 < i < |inputs| ==> inputs[i] == rest[i - 1];
    }
  }

  /** A payment is accepted exactly if its method is active, its amount positive, the received
      amount sufficient, the count allowed and a required reference there. */
  lemma PaymentAcceptedIff(methods: map<Uuid, Method>, input: PaymentInput)
    ensures var r := CheckPayment(methods, input);
      && (r.Ok? <==> && input.methodId in methods
                     && var m := methods[input.methodId];
                     && m.active && input.amount > 0 && ReceivedSuffices(m, input) && CountAllowed(m, input)
                     && (m.requiresReference ==> input.reference.Some?))
      && (r.Ok? ==> Recorded(methods[input.methodId], input, r.value))
  {
  }

  /** An accepted payment has the installments asked for exactly when the request was not
      negative; a very negative one is taken by its low sixteen bits. */
  lemma CountKeptIff(methods: map<Uuid, Method>, input: PaymentInput)
    requires CheckPayment(methods, input).Ok? && input.installments.Some?
    ensures CheckPayment(methods, input).value.installments == input.installments.value
       <==> input.installments.value >= 0
  {
    PaymentAcceptedIff(methods, input);
  }

  /** A request for -65535 installments passes as one. */
  lemma NegativeCountPasses()
    ensures var m := Method(true, true, false, false, false, 1);
      var r := CheckPayment(map[1 := m], PaymentInput(1, 100, None, Some(-65535), None));
      r.Ok? && r.value.installments == 1
  {
  }

  /** Why a payment is refused, as long as everything the code looks at before is in order. */
  lemma PaymentRefusals(methods: map<Uuid, Method>, input: PaymentInput)
    ensures var r := CheckPayment(methods, input);
      if input.methodId !in methods then r == Err(MethodNotFound)
      else
        var m := methods[input.methodId];
        if !m.active then r == Err(MethodInactive)
        else if input.amount == 0 then r == Err(AmountNotPositive)
        else if !ReceivedSuffices(m, input) then r == Err(InvalidReceivedAmount)
        else if input.installments.Some? && input.installments.value > 32767 then r == Err(ValidationError)
        else if !CountAllowed(m, input) then r == Err(InvalidInstallments)
        else if m.requiresReference && input.reference.None? then r == Err(ReferenceRequired)
        else r.Ok?
  {
  }

  /** A checkout appends, for each request in its order, the payment it asks for, and posts
      the sale's demand out of stock. */
  lemma CheckoutRecordsRequests(db: Db, sale: Uuid, inputs: seq<PaymentInput>, i: nat)
    requires Inv(db) && CheckoutSale(db, sale, inputs).Ok? && i < |inputs|
    ensures var after, n := CheckoutSale(db, sale, inputs).value, |db.payments|;
      && |after.payments| == n + |inputs| && after.payments[..n] == db.payments
      && var p := after.payments[n + i];
      && p.key == PaymentKey(sale, i) && p.sale == sale
      && inputs[i].methodId in db.methods && Recorded(db.methods[inputs[i].methodId], inputs[i], p.details)
  {
    CheckoutEffect(db, sale, inputs);
    var ps := CheckoutSettles(db, sale, inputs);
    CheckAllSettles(db.methods, inputs);
    assert CheckPayment(db.methods, inputs[i]) == Ok(ps[i]);
    PaymentAcceptedIff(db.methods, inputs[i]);
  }

  /** A checkout takes exactly what each product's lines add up to. */
  lemma CheckoutTakesDemand(db: Db, sale: Uuid, inputs: seq<PaymentInput>, p: Uuid)
    requires Inv(db) && CheckoutSale(db, sale, inputs).Ok?
    ensures var after := CheckoutSale(db, sale, inputs).value;
      Ledger.StockOf(after.book, p) == Ledger.StockOf(db.book, p) - Demand(db.sales[sale].items, p)
  {
    var s := db.sales[sale];
    CheckoutEffect(db, sale, inputs);
    CheckoutSucceedsIff(db, sale, inputs);
    LinesArePositive(s);
    DemandPositive(s.items, p);
    SortedKeysSpec(s.items);
  }
}
