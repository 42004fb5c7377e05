/**
 The services themselves, one method per transaction, over a mutable store. Columns are
 read through the driver, which may hand out any representation of a value, so the
 methods compute with the decimal arithmetic of their own package; each method is
 proved to make the step that Pos specifies.
 */
module PosStore {
  import opened Results
  import opened Identifiers
  import opened Decimal
  import opened Sales
  import opened Payments
  import opened StockDemand
  import opened Pos
  import DecimalText
  import Ledger

  /** What the driver must do: return some representation of the column's value. */
  ghost predicate Decodes(decode: (int, nat) -> Numeric) {
    forall v: int, scale: nat :: Represents(decode(v, scale), v, scale)
  }

  /** The value a column takes from an argument that fits its scale. */
  function Column(n: Numeric, scale: nat): int {
    var r := ScaledInt(n, scale);
    if r.Ok? then r.value else 0
  }

  lemma ScaledOfScaled(v: int, scale: nat)
    ensures ScaledInt(FromScaled(v, scale), scale) == Ok(v) && Column(FromScaled(v, scale), scale) == v
  {
  }

  lemma LastTaken<T>(s: seq<T>, i: nat)
    requires i < |s|
    ensures s[..i + 1] != [] && |s[..i + 1]| == i + 1 && s[..i + 1][i] == s[i] && s[..i + 1][..i] == s[..i]
  {
  }

  /** What follows a list already validated. */
  function After(done: seq<Settled>, r: Result<seq<Settled>, PosError>): Result<seq<Settled>, PosError> {
    if r.Err? then r else Ok(done + r.value)
  }

  lemma {:induction false} AmountSumAppend(ps: seq<Settled>, p: Settled)
    ensures AmountSum(ps + [p]) == AmountSum(ps) + p.amount
  {
    if ps == [] {
      assert ps + [p] == [p];
    } else {
      assert (ps + [p])[1..] == ps[1..] + [p];
      AmountSumAppend(ps[1..], p);
    }
  }

  lemma AfterNext(methods: map<Uuid, Method>, inputs: seq<PaymentInput>, done: seq<Settled>, i: nat, p: Settled)
    requires i < |inputs| && CheckPayment(methods, inputs[i]) == Ok(p)
    ensures After(done, CheckAll(methods, inputs[i..])) == After(done + [p], CheckAll(methods, inputs[i + 1..]))
  {
    assert inputs[i..][1..] == inputs[i + 1..];
    var rest := CheckAll(methods, inputs[i + 1..]);
    if rest.Ok? {
      assert done + ([p] + rest.value) == (done + [p]) + rest.value;
    }
  }

  // ----- the totals -----

  /** The sums of the sales package: exact lines, one rounding each. */
  method SumSaleTotals(decode: (int, nat) -> Numeric, items: seq<Item>)
    returns (subtotal: Numeric, discount: Numeric, total: Numeric)
    requires Decodes(decode)
    ensures subtotal == FromScaled(SubtotalSum(items), 2)
    ensures discount == FromScaled(DiscountSum(items), 2)
    ensures total == FromScaled(TotalSum(items), 2)
  {
    var sub, disc, tot := 0, 0, 0;
    for i := 0 to |items|
      invariant sub == SubtotalSum(items[..i])
      invariant disc == DiscountSum(items[..i])
      invariant tot == TotalSum(items[..i])
    {
      var item := items[i];
      var price, quantity := decode(item.price, 2), decode(item.quantity, 3);
      MultiplicationsAgree(price, item.price, quantity, item.quantity);
      var line := MultiplyThenRound(price, quantity).value;
      ReadsExactly(decode(item.discount, 2), item.discount, 2);
      ReadsExactly(decode(item.total, 2), item.total, 2);
      sub := sub + ScaledInt(line, 2).value;
      disc := disc + ScaledInt(decode(item.discount, 2), 2).value;
      tot := tot + ScaledInt(decode(item.total, 2), 2).value;
      LastTaken(items, i);
    }
    assert items[..|items|] == items;
    subtotal, discount, total := FromScaled(sub, 2), FromScaled(disc, 2), FromScaled(tot, 2);
  }

  lemma MoneyOps(a: Numeric, x: int, b: Numeric, y: int)
    requires ScaledInt(a, 2) == Ok(x) && ScaledInt(b, 2) == Ok(y)
    ensures AddMoney(a, b) == Ok(FromScaled(x + y, 2))
    ensures SubtractMoney(a, b) == Ok(FromScaled(x - y, 2))
    ensures CompareMoney(a, b) == Ok(if x < y then -1 else if x > y then 1 else 0)
  {
  }

  /** One line of the checkout's validation: its own rescale-then-multiply arithmetic
      against the stored total. */
  method CheckLine(decode: (int, nat) -> Numeric, item: Item) returns (line: Numeric, consistent: bool)
    requires Decodes(decode)
    ensures line == FromScaled(LineOf(item), 2)
    ensures consistent <==> LineOf(item) - item.discount == item.total
  {
    var price, quantity := decode(item.price, 2), decode(item.quantity, 3);
    MultiplicationsAgree(price, item.price, quantity, item.quantity);
    line := RescaleThenMultiply(price, quantity).value;
    ReadsExactly(decode(item.discount, 2), item.discount, 2);
    ReadsExactly(decode(item.total, 2), item.total, 2);
    ScaledOfScaled(LineOf(item), 2);
    MoneyOps(line, LineOf(item), decode(item.discount, 2), item.discount);
    var expected := SubtractMoney(line, decode(item.discount, 2)).value;
    ScaledOfScaled(LineOf(item) - item.discount, 2);
    MoneyOps(expected, LineOf(item) - item.discount, decode(item.total, 2), item.total);
    consistent := CompareMoney(expected, decode(item.total, 2)).value == 0;
  }

  method AddColumn(decode: (int, nat) -> Numeric, sum: Numeric, ghost x: int, column: int) returns (r: Numeric)
    requires Decodes(decode) && sum == FromScaled(x, 2)
    ensures r == FromScaled(x + column, 2)
  {
    ReadsExactly(decode(column, 2), column, 2);
    MoneyOps(sum, x, decode(column, 2), column);
    r := AddMoney(sum, decode(column, 2)).value;
  }

  method EqualsColumn(decode: (int, nat) -> Numeric, column: int, sum: Numeric, ghost x: int) returns (equal: bool)
    requires Decodes(decode) && sum == FromScaled(x, 2)
    ensures equal <==> column == x
  {
    ReadsExactly(decode(column, 2), column, 2);
    MoneyOps(decode(column, 2), column, sum, x);
    equal := CompareMoney(decode(column, 2), sum).value == 0;
  }

  method ValidateSaleTotals(decode: (int, nat) -> Numeric, sale: Sale) returns (valid: bool)
    requires Decodes(decode)
    ensures valid <==> ValidTotals(sale)
  {
    var items := sale.items;
    var subtotal, discount := ZeroMoney(), ZeroMoney();
    for i := 0 to |items|
      invariant subtotal == FromScaled(SubtotalSum(items[..i]), 2)
      invariant discount == FromScaled(DiscountSum(items[..i]), 2)
      invariant forall k :: 0 <= k < i ==> LineOf(items[k]) - items[k].discount == items[k].total
    {
      var line, consistent := CheckLine(decode, items[i]);
      if !consistent {
        return false;
      }
      LastTaken(items, i);
      MoneyOps(subtotal, SubtotalSum(items[..i]), line, LineOf(items[i]));
      subtotal := AddMoney(subtotal, line).value;
      discount := AddColumn(decode, discount, DiscountSum(items[..i]), items[i].discount);
    }
    assert items[..|items|] == items;
    var subtotalOk := EqualsColumn(decode, sale.subtotal, subtotal, SubtotalSum(items));
    if !subtotalOk {
      return false;
    }
    var discountOk := EqualsColumn(decode, sale.discount, discount, DiscountSum(items));
    if !discountOk {
      return false;
    }
    ghost var difference := SubtotalSum(items) - DiscountSum(items);
    MoneyOps(subtotal, SubtotalSum(items), discount, DiscountSum(items));
    var expected := AddColumn(decode, SubtractMoney(subtotal, discount).value, difference, sale.addition);
    valid := EqualsColumn(decode, sale.total, expected, difference + sale.addition);
  }

  // ----- pricing a line -----

  /** Sales: multiply exactly, compare the discount, subtract; then the row's checks. */
  method PriceItem(decode: (int, nat) -> Numeric, id: Uuid, product: Uuid, price: int, quantity: int, discount: int)
    returns (r: Result<Item, PosError>)
    requires Decodes(decode)
    ensures r == PricedItem(id, product, price, quantity, discount)
  {
    var subtotal := LineSubtotal(price, quantity);
    MultiplicationsAgree(decode(price, 2), price, FromScaled(quantity, 3), quantity);
    var line := MultiplyThenRound(decode(price, 2), FromScaled(quantity, 3)).value;
    MoneyOps(FromScaled(discount, 2), discount, line, subtotal);
    if CompareMoney(FromScaled(discount, 2), line).value > 0 {
      return Err(DiscountTooLarge);
    }
    MoneyOps(line, subtotal, FromScaled(discount, 2), discount);
    var total := SubtractMoney(line, FromScaled(discount, 2)).value;
    ScaledOfScaled(subtotal - discount, 2);
    var it := Item(id, product, price, quantity, discount, Column(total, 2));
    if !ItemRowAccepted(it) {
      return Err(PosError.DatabaseError);
    }
    return Ok(it);
  }

  /** Recomputing the sale row from the listed items. */
  method Recalculate(decode: (int, nat) -> Numeric, sale: Sale, items: seq<Item>) returns (r: Result<Sale, PosError>)
    requires Decodes(decode)
    ensures r == Recalculated(sale, items)
  {
    var subtotal, discount, total := SumSaleTotals(decode, items);
    var sub, disc, tot := Column(subtotal, 2), Column(discount, 2), Column(total, 2);
    if !InRange(sub) || !InRange(disc) || !InRange(tot) || sub < 0 || disc < 0 || tot < 0 || disc > sub {
      return Err(PosError.DatabaseError);
    }
    if tot != sub - disc {
      return Err(SaleNotOpen);
    }
    return Ok(sale.(items := items, subtotal := sub, discount := disc, addition := 0, total := tot));
  }

  // ----- payments -----

  method ValidateReceivedAmount(m: Method, amount: int, received: Option<int>)
    returns (r: Result<(Option<int>, Option<int>), PosError>)
    ensures r == CheckReceived(m, amount, received)
  {
    if m.allowsChange {
      if received.None? {
        return Ok((Some(amount), Some(Column(ZeroMoney(), 2))));
      }
      MoneyOps(FromScaled(received.value, 2), received.value, FromScaled(amount, 2), amount);
      if CompareMoney(FromScaled(received.value, 2), FromScaled(amount, 2)).value < 0 {
        return Err(InvalidReceivedAmount);
      }
      var change := SubtractMoney(FromScaled(received.value, 2), FromScaled(amount, 2)).value;
      return Ok((received, Some(Column(change, 2))));
    }
    if received.None? {
      return Ok((None, None));
    }
    MoneyOps(FromScaled(received.value, 2), received.value, FromScaled(amount, 2), amount);
    if CompareMoney(FromScaled(received.value, 2), FromScaled(amount, 2)).value != 0 {
      return Err(InvalidReceivedAmount);
    }
    return Ok((received, None));
  }

  /** The body of the validation loop for one payment. */
  method ValidateOne(methods: map<Uuid, Method>, input: PaymentInput) returns (r: Result<Settled, PosError>)
    requires NormalizedInstallments(input.installments).Ok?
    ensures r == CheckPayment(methods, input)
  {
    if input.methodId !in methods {
      return Err(MethodNotFound);
    }
    var m := methods[input.methodId];
    if !m.active {
      return Err(MethodInactive);
    }
    MoneyOps(FromScaled(input.amount, 2), input.amount, ZeroMoney(), 0);
    if CompareMoney(FromScaled(input.amount, 2), ZeroMoney()).value <= 0 {
      return Err(AmountNotPositive);
    }
    var parts := ValidateReceivedAmount(m, input.amount, input.received);
    if parts.Err? {
      return Err(parts.error);
    }
    var installments := CheckInstallments(m, NormalizedInstallments(input.installments).value);
    if installments.Err? {
      return Err(installments.error);
    }
    if m.requiresReference && input.reference.None? {
      return Err(ReferenceRequired);
    }
    return Ok(Settled(input.methodId, input.amount, parts.value.0, parts.value.1, installments.value,
                      Trimmed(input.reference)));
  }

  lemma {:induction false} InputsAreNormalized(inputs: seq<PaymentInput>)
    requires InputError(inputs).None?
    ensures forall i :: 0 <= i < |inputs| ==> NormalizedInstallments(inputs[i].installments).Ok?
  {
    if inputs != [] {
      InputsAreNormalized(inputs[1..]);
    }
  }

  method ValidateAll(decode: (int, nat) -> Numeric, methods: map<Uuid, Method>, total: int, inputs: seq<PaymentInput>)
    returns (r: Result<seq<Settled>, PosError>)
    requires Decodes(decode) && InputError(inputs).None?
    ensures r == Payments.ValidatePayments(methods, total, inputs)
  {
    if |inputs| == 0 {
      return Err(PaymentsRequired);
    }
    InputsAreNormalized(inputs);
    var validated: seq<Settled> := [];
    var sum := ZeroMoney();
    assert inputs[0..] == inputs;
    assert After([], CheckAll(methods, inputs)) == CheckAll(methods, inputs) by {
      var c := CheckAll(methods, inputs);
      if c.Ok? { assert [] + c.value == c.value; }
    }
    for i := 0 to |inputs|
      invariant sum == FromScaled(AmountSum(validated), 2)
      invariant CheckAll(methods, inputs) == After(validated, CheckAll(methods, inputs[i..]))
    {
      var checked := ValidateOne(methods, inputs[i]);
      if checked.Err? {
        return Err(checked.error);
      }
      var amount := FromScaled(inputs[i].amount, 2);
      MoneyOps(sum, AmountSum(validated), amount, inputs[i].amount);
      sum := AddMoney(sum, amount).value;
      AmountSumAppend(validated, checked.value);
      AfterNext(methods, inputs, validated, i, checked.value);
      CheckPaymentSettles(methods, inputs[i]);
      validated := validated + [checked.value];
    }
    assert validated + [] == validated;
    var equal := EqualsColumn(decode, total, sum, AmountSum(validated));
    if !equal {
      return Err(PaymentAmountMismatch);
    }
    return Ok(validated);
  }

  // ----- stock keys -----

  /** The quantities per product, summed in place over the lines. */
  method Aggregate(decode: (int, nat) -> Numeric, items: seq<Item>) returns (byProduct: map<Uuid, Numeric>)
    requires Decodes(decode)
    ensures forall p :: p in byProduct <==> Demanded(items, p)
    ensures forall p :: p in byProduct ==> byProduct[p] == FromScaled(Demand(items, p), 3)
  {
    byProduct := map[];
    for i := 0 to |items|
      invariant forall p :: p in byProduct <==> Demanded(items[..i], p)
      invariant forall p :: p in byProduct ==> byProduct[p] == FromScaled(Demand(items[..i], p), 3)
    {
      var p := items[i].product;
      var current := if p in byProduct then byProduct[p] else ZeroMoney();
      QuantityStep(decode, items, i, current);
      byProduct := byProduct[p := AddQuantity(current, decode(items[i].quantity, 3)).value];
      LastTaken(items, i);
      assert items[..i + 1] == items[..i] + [items[i]];
      forall q ensures Demanded(items[..i + 1], q) <==> Demanded(items[..i], q) || q == p {
        DemandedAppend(items[..i], items[i], q);
      }
    }
    assert items[..|items|] == items;
  }

  lemma {:induction false} NoDemand(items: seq<Item>, p: Uuid)
    requires !Demanded(items, p)
    ensures Demand(items, p) == 0
  {
    if items != [] {
      var init, last := items[..|items| - 1], items[|items| - 1];
      assert items == init + [last];
      DemandedAppend(init, last, p);
      NoDemand(init, p);
    }
  }

  lemma QuantityStep(decode: (int, nat) -> Numeric, items: seq<Item>, i: nat, current: Numeric)
    requires Decodes(decode) && i < |items|
    requires current == if Demanded(items[..i], items[i].product)
                        then FromScaled(Demand(items[..i], items[i].product), 3) else ZeroMoney()
    ensures AddQuantity(current, decode(items[i].quantity, 3))
            == Ok(FromScaled(Demand(items[..i + 1], items[i].product), 3))
  {
    var p := items[i].product;
    ReadsExactly(decode(items[i].quantity, 3), items[i].quantity, 3);
    LastTaken(items, i);
    if !Demanded(items[..i], p) {
      NoDemand(items[..i], p);
      assert ScaledInt(ZeroMoney(), 3) == Ok(0);
    }
  }

  /** Collecting the keys of the map, in whatever order it yields them, and sorting. */
  method KeysInOrder(byProduct: map<Uuid, Numeric>) returns (keys: seq<Uuid>)
    ensures Ascending(keys) && forall p :: p in keys <==> p in byProduct
  {
    keys := [];
    var rest := byProduct.Keys;
    while rest != {}
      invariant Ascending(keys) && rest <= byProduct.Keys
      invariant forall p :: p in keys <==> p in byProduct && p !in rest
      decreases |rest|
    {
      var k :| k in rest;
      forall x ensures x in InsertKey(keys, k) <==> x in keys || x == k { InsertKeyElements(keys, k, x); }
      InsertKeyAscends(keys, k);
      keys := InsertKey(keys, k);
      rest := rest - {k};
    }
  }

  // ----- the store -----

  class Store {
    const decode: (int, nat) -> Numeric
    var products: map<Uuid, Product>
    var methods: map<Uuid, Method>
    var sales: map<Uuid, Sale>
    var stock: map<Uuid, int>
    var movements: seq<Ledger.Movement>
    var payments: seq<Payment>
    var elsewhere: References
    var fiscal: seq<Uuid>

    ghost predicate Valid() {
      Decodes(decode)
    }

    ghost function View(): Db
      reads this
    {
      Db(products, methods, sales, Ledger.Book(stock, movements), payments, elsewhere, fiscal)
    }

    constructor (driver: (int, nat) -> Numeric)
      requires Decodes(driver)
      ensures Valid() && View() == EMPTY
    {
      decode := driver;
      products, methods, sales, stock, movements := map[], map[], map[], map[], [];
      payments, elsewhere, fiscal := [], {}, [];
    }

    method Create(id: Uuid, rawKey: string) returns (r: Option<PosError>)
      modifies this`sales
      ensures View() == Step(old(View()), Op.Create(id, rawKey))
      ensures r == ErrorOf(old(View()), Op.Create(id, rawKey))
    {
      var key := DecimalText.TrimSpace(rawKey);
      if key == "" {
        return Some(ValidationError);
      }
      if KeyUsed(sales, key) {
        return None;
      }
      if |key| > MAX_KEY || id in sales {
        return Some(PosError.DatabaseError);
      }
      sales := sales[id := NewSale(key)];
      return None;
    }

    method AddItem(sale: Uuid, at: nat, item: Uuid, product: Uuid, quantity: Quantity, discount: nat)
      returns (r: Option<PosError>)
      requires Valid()
      modifies this`sales
      ensures View() == Step(old(View()), Op.AddItem(sale, at, item, product, quantity, discount))
      ensures r == ErrorOf(old(View()), Op.AddItem(sale, at, item, product, quantity, discount))
    {
      if sale !in sales {
        return Some(SaleNotFound);
      }
      var s := sales[sale];
      if s.status != OPEN {
        return Some(SaleNotOpen);
      }
      if product !in products {
        return Some(ProductNotFound);
      }
      if !products[product].active {
        return Some(ProductInactive);
      }
      var priced := PriceItem(decode, item, product, products[product].price, quantity, discount);
      if priced.Err? {
        return Some(priced.error);
      }
      var after := Recalculate(decode, s, InsertAt(s.items, at, priced.value));
      if after.Err? {
        return Some(after.error);
      }
      if ItemIdTaken(sales, item) {
        return Some(PosError.DatabaseError);
      }
      sales := sales[sale := after.value];
      return None;
    }

    method UpdateItem(sale: Uuid, item: Uuid, quantity: Quantity, discount: nat) returns (r: Option<PosError>)
      requires Valid()
      modifies this`sales
      ensures View() == Step(old(View()), Op.UpdateItem(sale, item, quantity, discount))
      ensures r == ErrorOf(old(View()), Op.UpdateItem(sale, item, quantity, discount))
    {
      if sale !in sales {
        return Some(SaleNotFound);
      }
      var s := sales[sale];
      if s.status != OPEN {
        return Some(SaleNotOpen);
      }
      var found := FindItem(s.items, item);
      if found.None? {
        return Some(SaleItemNotFound);
      }
      var i := found.value;
      var priced := PriceItem(decode, item, s.items[i].product, s.items[i].price, quantity, discount);
      if priced.Err? {
        return Some(priced.error);
      }
      var after := Recalculate(decode, s, s.items[i := priced.value]);
      if after.Err? {
        return Some(after.error);
      }
      sales := sales[sale := after.value];
      return None;
    }

    method RemoveItem(sale: Uuid, item: Uuid) returns (r: Option<PosError>)
      requires Valid()
      modifies this`sales
      ensures View() == Step(old(View()), Op.RemoveItem(sale, item))
      ensures r == ErrorOf(old(View()), Op.RemoveItem(sale, item))
    {
      if sale !in sales {
        return Some(SaleNotFound);
      }
      var s := sales[sale];
      if s.status != OPEN {
        return Some(SaleNotOpen);
      }
      var found := FindItem(s.items, item);
      if found.None? {
        return Some(SaleItemNotFound);
      }
      var i := found.value;
      var after := Recalculate(decode, s, s.items[..i] + s.items[i + 1..]);
      if after.Err? {
        return Some(after.error);
      }
      sales := sales[sale := after.value];
      return None;
    }

    method Cancel(sale: Uuid) returns (r: Option<PosError>)
      modifies this`sales
      ensures View() == Step(old(View()), Op.Cancel(sale))
      ensures r == ErrorOf(old(View()), Op.Cancel(sale))
    {
      if sale !in sales {
        return Some(SaleNotFound);
      }
      match sales[sale].status
      case CANCELLED => return Some(SaleAlreadyCancelled);
      case COMPLETED => return Some(SaleNotOpen);
      case OPEN =>
        sales := sales[sale := sales[sale].(status := CANCELLED)];
        return None;
    }

    /** The update statement alone. */
    method UpdateStock(product: Uuid, kind: Ledger.MovementKind, quantity: int) returns (r: Option<Ledger.LedgerError>)
      modifies this`stock
      ensures var u := Ledger.Update(old(View()).book, product, kind, quantity);
        if u.Ok? then r == None && stock == old(stock)[product := u.value]
        else r == Some(u.error) && stock == old(stock)
    {
      if Ledger.Sign(kind) > 0 {
        var previous := if product in stock then stock[product] else 0;
        if quantity <= 0 || previous + quantity > MAX_COLUMN {
          return Some(Ledger.DatabaseError);
        }
        stock := stock[product := previous + quantity];
        return None;
      }
      if product in stock && quantity > 0 && stock[product] >= quantity {
        stock := stock[product := stock[product] - quantity];
        return None;
      }
      if product !in stock {
        return Some(Ledger.StockNotFound);
      }
      return Some(Ledger.InsufficientStock);
    }

    /** Stock update, then movement row. On failure the stock may already be changed:
        undoing that is the caller's transaction. */
    method PostMovement(product: Uuid, kind: Ledger.MovementKind, quantity: int, refType: string, refId: Uuid)
      returns (r: Option<Ledger.LedgerError>)
      modifies this`stock, this`movements
      ensures var posted := Ledger.Post(old(View()).book, product, kind, quantity, refType, refId);
        if posted.Ok? then r == None && View().book == posted.value else r == Some(posted.error)
    {
      var previous := if product in stock then stock[product] else 0;
      var updated := UpdateStock(product, kind, quantity);
      if updated.Some? {
        return updated;
      }
      if |refType| > Ledger.MAX_REFERENCE_TYPE {
        return Some(Ledger.DatabaseError);
      }
      if Ledger.ReferenceTaken(movements, product, kind, refType, refId) {
        return Some(Ledger.DuplicateReference);
      }
      movements := movements + [Ledger.Movement(product, kind, quantity, previous, stock[product], refType, refId)];
      return None;
    }

    method ChangeStock(product: Uuid, kind: Ledger.MovementKind, quantity: Quantity, rawRefType: string, refId: Uuid)
      returns (r: Option<PosError>)
      modifies this`stock, this`movements
      ensures var moved := MoveStock(old(View()), product, kind, quantity, rawRefType, refId);
        if moved.Ok? then r == None && View() == moved.value else r == Some(moved.error) && View() == old(View())
    {
      var refType := DecimalText.TrimSpace(rawRefType);
      if refType == "" {
        return Some(ValidationError);
      }
      if product !in products {
        return Some(ProductNotFound);
      }
      var stockBefore, movementsBefore := stock, movements;
      var posted := PostMovement(product, kind, quantity, refType, refId);
      if posted.Some? {
        stock, movements := stockBefore, movementsBefore;
        return Some(InventoryError(posted.value));
      }
      return None;
    }

    method CreateEntry(product: Uuid, quantity: Quantity, refType: string, refId: Uuid) returns (r: Option<PosError>)
      modifies this`stock, this`movements
      ensures View() == Step(old(View()), Op.CreateEntry(product, quantity, refType, refId))
      ensures r == ErrorOf(old(View()), Op.CreateEntry(product, quantity, refType, refId))
    {
      r := ChangeStock(product, Ledger.PURCHASE, quantity, refType, refId);
    }

    method CreateAdjustment(product: Uuid, inward: bool, quantity: Quantity, refType: string, refId: Uuid)
      returns (r: Option<PosError>)
      modifies this`stock, this`movements
      ensures View() == Step(old(View()), Op.CreateAdjustment(product, inward, quantity, refType, refId))
      ensures r == ErrorOf(old(View()), Op.CreateAdjustment(product, inward, quantity, refType, refId))
    {
      var kind := if inward then Ledger.ADJUSTMENT_IN else Ledger.ADJUSTMENT_OUT;
      r := ChangeStock(product, kind, quantity, refType, refId);
    }

    /** Aggregate, sort, then decrease and record product by product. */
    method ApplyInventoryChanges(sale: Uuid, items: seq<Item>) returns (r: Option<PosError>)
      requires Valid()
      modifies this`stock, this`movements
      ensures var applied := ApplyInventory(old(View()).book, sale, items);
        if applied.Ok? then r == None && View().book == applied.value else r == Some(applied.error)
    {
      var byProduct := Aggregate(decode, items);
      var keys := KeysInOrder(byProduct);
      SortedKeysSpec(items);
      AscendingUnique(keys, SortedKeys(items));
      assert keys[0..] == keys;
      for i := 0 to |keys|
        invariant ApplyInventory(old(View()).book, sale, items) == ApplyAll(View().book, sale, items, keys[i..])
      {
        assert keys[i..][0] == keys[i] && keys[i..][1..] == keys[i + 1..] && keys[i] in keys;
        ScaledOfScaled(Demand(items, keys[i]), 3);
        var posted := PostMovement(keys[i], Ledger.SALE, Column(byProduct[keys[i]], 3), SALE_REFERENCE, sale);
        if posted.Some? {
          return Some(CheckoutError(posted.value));
        }
      }
      return None;
    }

    method CreatePayments(sale: Uuid, validated: seq<Settled>) returns (r: Option<PosError>)
      modifies this`payments
      ensures var created := CreateFrom(methods, elsewhere, old(payments), sale, validated, 0);
        if created.Ok? then r == None && payments == created.value else r == Some(created.error)
    {
      for i := 0 to |validated|
        invariant CreateFrom(methods, elsewhere, old(payments), sale, validated, 0)
               == CreateFrom(methods, elsewhere, payments, sale, validated, i)
      {
        var created := CreatePayment(methods, elsewhere, payments, sale, i, validated[i]);
        if created.Err? {
          return Some(created.error);
        }
        payments := created.value;
      }
      return None;
    }

    /** The statements of the checkout transaction, in order; what a failed one has
        already written is still there. */
    method CheckoutStatements(sale: Uuid, inputs: seq<PaymentInput>) returns (r: Option<PosError>)
      requires Valid() && InputError(inputs).None?
      modifies this`sales, this`stock, this`movements, this`payments, this`fiscal
      ensures var done := CheckoutSale(old(View()), sale, inputs);
        if done.Ok? then r == None && View() == done.value else r == Some(done.error)
    {
      if sale !in sales {
        return Some(SaleNotFound);
      }
      var s := sales[sale];
      match s.status
      case COMPLETED => return Some(SaleAlreadyCompleted);
      case CANCELLED => return Some(SaleNotOpen);
      case OPEN =>
      if |s.items| == 0 {
        return Some(SaleHasNoItems);
      }
      var totalsOk := ValidateSaleTotals(decode, s);
      if !totalsOk {
        return Some(TotalsInconsistent);
      }
      var validated := ValidateAll(decode, methods, s.total, inputs);
      if validated.Err? {
        return Some(validated.error);
      }
      var applied := ApplyInventoryChanges(sale, s.items);
      if applied.Some? {
        return applied;
      }
      var created := CreatePayments(sale, validated.value);
      if created.Some? {
        return created;
      }
      sales := sales[sale := s.(status := COMPLETED)];
      if sale !in fiscal {
        fiscal := fiscal + [sale];
      }
      return None;
    }

    /** Commit on success, roll back on any error. */
    method Checkout(sale: Uuid, inputs: seq<PaymentInput>) returns (r: Option<PosError>)
      requires Valid()
      modifies this`sales, this`stock, this`movements, this`payments, this`fiscal
      ensures View() == Step(old(View()), Op.Checkout(sale, inputs))
      ensures r == ErrorOf(old(View()), Op.Checkout(sale, inputs))
    {
      if InputError(inputs).Some? {
        return InputError(inputs);
      }
      var salesBefore, stockBefore, movementsBefore, paymentsBefore, fiscalBefore
        := sales, stock, movements, payments, fiscal;
      r := CheckoutStatements(sale, inputs);
      if r.Some? {
        sales, stock, movements, payments, fiscal
          := salesBefore, stockBefore, movementsBefore, paymentsBefore, fiscalBefore;
      }
    }
  }

  function ErrorOf(db: Db, op: Op): Option<PosError> {
    var r := Perform(db, op);
    if r.Ok? then None else Some(r.error)
  }
}
