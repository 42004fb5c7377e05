/**
 One store's point of sale as a state machine over its tables: catalog rows, sales,
 stock ledger, payments and fiscal documents. Each step is one transaction; a step
 that fails leaves the tables as they were.
 */
module Pos {
  import opened Results
  import opened Identifiers
  import opened Sales
  import opened Payments
  import opened StockDemand
  import DecimalText
  import Ledger

  datatype Product = Product(price: int, active: bool)

  /** `elsewhere` holds what other stores have put into the payments' shared unique index. */
  datatype Db = Db(products: map<Uuid, Product>, methods: map<Uuid, Method>, sales: map<Uuid, Sale>,
                   book: Ledger.Book, payments: seq<Payment>, elsewhere: References, fiscal: seq<Uuid>)

  /** What the quantity parser accepts: more than zero, in thousandths. */
  type Quantity = q: int | q > 0 witness 1

  /** `id` and `item` are the keys the database draws for new rows. */
  datatype Op =
    | Create(id: Uuid, key: string)
    | AddItem(sale: Uuid, at: nat, item: Uuid, product: Uuid, quantity: Quantity, discount: nat)
    | UpdateItem(sale: Uuid, item: Uuid, quantity: Quantity, discount: nat)
    | RemoveItem(sale: Uuid, item: Uuid)
    | Cancel(sale: Uuid)
    | Checkout(sale: Uuid, inputs: seq<PaymentInput>)
    | CreateEntry(product: Uuid, quantity: Quantity, refType: string, refId: Uuid)
    | CreateAdjustment(product: Uuid, inward: bool, quantity: Quantity, refType: string, refId: Uuid)
    | SetProduct(product: Uuid, row: Product)
    | SetMethod(methodId: Uuid, methodRow: Method)
    | PayElsewhere(methodId: Uuid, reference: string)

  type Outcome = Result<Db, PosError>

  const MAX_KEY: nat := 255
  const EMPTY := Db(map[], map[], map[], Ledger.EMPTY, [], {}, [])

  predicate ProductRowOk(p: Product) {
    0 <= p.price <= MAX_COLUMN
  }

  predicate MethodRowOk(m: Method) {
    if m.allowsInstallments then 1 < m.maxInstallments <= 32767 else m.maxInstallments == 1
  }

  predicate KeyUsed(sales: map<Uuid, Sale>, key: string) {
    exists s :: s in sales && sales[s].key == key
  }

  predicate ItemIdTaken(sales: map<Uuid, Sale>, id: Uuid) {
    exists s :: s in sales && FindItem(sales[s].items, id).Some?
  }

  /** A repeated key returns the sale it created. */
  function CreateSale(db: Db, id: Uuid, rawKey: string): Outcome {
    var key := DecimalText.TrimSpace(rawKey);
    if key == "" then Err(ValidationError)
    else if KeyUsed(db.sales, key) then Ok(db)
    else if |key| > MAX_KEY || id in db.sales then Err(DatabaseError)
    else Ok(db.(sales := db.sales[id := NewSale(key)]))
  }

  function OpenSale(db: Db, sale: Uuid): Result<Sale, PosError> {
    if sale !in db.sales then Err(SaleNotFound)
    else if db.sales[sale].status != OPEN then Err(SaleNotOpen)
    else Ok(db.sales[sale])
  }

  function StoreSale(db: Db, sale: Uuid, r: Result<Sale, PosError>): Outcome {
    match r
    case Err(e) => Err(e)
    case Ok(t) => Ok(db.(sales := db.sales[sale := t]))
  }

  function AddToSale(db: Db, sale: Uuid, at: nat, item: Uuid, product: Uuid, quantity: int, discount: int): Outcome {
    match OpenSale(db, sale)
    case Err(e) => Err(e)
    case Ok(s) =>
      if product !in db.products then Err(ProductNotFound)
      else if !db.products[product].active then Err(ProductInactive)
      else
        match Sales.AddItem(s, at, item, product, db.products[product].price, quantity, discount)
        case Err(e) => Err(e)
        case Ok(t) => if ItemIdTaken(db.sales, item) then Err(DatabaseError) else StoreSale(db, sale, Ok(t))
  }

  function UpdateInSale(db: Db, sale: Uuid, item: Uuid, quantity: int, discount: int): Outcome {
    match OpenSale(db, sale)
    case Err(e) => Err(e)
    case Ok(s) => StoreSale(db, sale, Sales.UpdateItem(s, item, quantity, discount))
  }

  function RemoveFromSale(db: Db, sale: Uuid, item: Uuid): Outcome {
    match OpenSale(db, sale)
    case Err(e) => Err(e)
    case Ok(s) => StoreSale(db, sale, Sales.RemoveItem(s, item))
  }

  function CancelSale(db: Db, sale: Uuid): Outcome {
    if sale !in db.sales then Err(SaleNotFound)
    else
      match db.sales[sale].status
      case CANCELLED => Err(SaleAlreadyCancelled)
      case COMPLETED => Err(SaleNotOpen)
      case OPEN => Ok(db.(sales := db.sales[sale := db.sales[sale].(status := CANCELLED)]))
  }

  function InventoryError(e: Ledger.LedgerError): PosError {
    match e
    case StockNotFound => InventoryNotFound
    case InsufficientStock => InsufficientInventory
    case DuplicateReference => OperationAlreadyProcessed
    case DatabaseError => PosError.DatabaseError
  }

  /** A manual stock movement, idempotent by its reference. */
  function MoveStock(db: Db, product: Uuid, kind: Ledger.MovementKind, quantity: int, rawRefType: string, refId: Uuid)
      : Outcome
  {
    var refType := DecimalText.TrimSpace(rawRefType);
    if refType == "" then Err(ValidationError)
    else if product !in db.products then Err(ProductNotFound)
    else
      match Ledger.Post(db.book, product, kind, quantity, refType, refId)
      case Err(e) => Err(InventoryError(e))
      case Ok(book) => Ok(db.(book := book))
  }

  function Completed(db: Db, sale: Uuid, book: Ledger.Book, payments: seq<Payment>): Db
    requires sale in db.sales
  {
    db.(sales := db.sales[sale := db.sales[sale].(status := COMPLETED)],
        book := book,
        payments := payments,
        fiscal := if sale in db.fiscal then db.fiscal else db.fiscal + [sale])
  }

  /** The checkout transaction from the validated payments on. */
  function Settle(db: Db, sale: Uuid, ps: seq<Settled>): Outcome
    requires sale in db.sales
  {
    match ApplyInventory(db.book, sale, db.sales[sale].items)
    case Err(e) => Err(e)
    case Ok(book) =>
      match CreateFrom(db.methods, db.elsewhere, db.payments, sale, ps, 0)
      case Err(e) => Err(e)
      case Ok(payments) => Ok(Completed(db, sale, book, payments))
  }

  function CheckoutSale(db: Db, sale: Uuid, inputs: seq<PaymentInput>): Outcome {
    if InputError(inputs).Some? then Err(InputError(inputs).value)
    else if sale !in db.sales then Err(SaleNotFound)
    else
      var s := db.sales[sale];
      match s.status
      case COMPLETED => Err(SaleAlreadyCompleted)
      case CANCELLED => Err(SaleNotOpen)
      case OPEN =>
        if s.items == [] then Err(SaleHasNoItems)
        else if !ValidTotals(s) then Err(TotalsInconsistent)
        else
          match ValidatePayments(db.methods, s.total, inputs)
          case Err(e) => Err(e)
          case Ok(ps) => Settle(db, sale, ps)
  }

  predicate ReferenceFree(db: Db, methodId: Uuid, reference: string) {
    && (methodId, reference) !in db.elsewhere
    && forall i :: 0 <= i < |db.payments| ==>
         db.payments[i].details.methodId != methodId || db.payments[i].details.reference != Some(reference)
  }

  /** Another store of the organization records a payment with a provider reference. */
  function UseReference(db: Db, methodId: Uuid, reference: string): Outcome {
    if ReferenceFree(db, methodId, reference) then Ok(db.(elsewhere := db.elsewhere + {(methodId, reference)}))
    else Err(DatabaseError)
  }

  function Perform(db: Db, op: Op): Outcome {
    match op
    case Create(id, key) => CreateSale(db, id, key)
    case AddItem(sale, at, item, product, quantity, discount) =>
      AddToSale(db, sale, at, item, product, quantity, discount)
    case UpdateItem(sale, item, quantity, discount) => UpdateInSale(db, sale, item, quantity, discount)
    case RemoveItem(sale, item) => RemoveFromSale(db, sale, item)
    case Cancel(sale) => CancelSale(db, sale)
    case Checkout(sale, inputs) => CheckoutSale(db, sale, inputs)
    case CreateEntry(product, quantity, refType, refId) =>
      MoveStock(db, product, Ledger.PURCHASE, quantity, refType, refId)
    case CreateAdjustment(product, inward, quantity, refType, refId) =>
      MoveStock(db, product, if inward then Ledger.ADJUSTMENT_IN else Ledger.ADJUSTMENT_OUT, quantity, refType, refId)
    case SetProduct(product, row) =>
      if ProductRowOk(row) then Ok(db.(products := db.products[product := row])) else Err(DatabaseError)
    case SetMethod(id, row) =>
      if MethodRowOk(row) then Ok(db.(methods := db.methods[id := row])) else Err(DatabaseError)
    case PayElsewhere(id, reference) => UseReference(db, id, reference)
  }

  function Step(db: Db, op: Op): Db {
    var r := Perform(db, op);
    if r.Ok? then r.value else db
  }

  function Exec(db: Db, ops: seq<Op>): Db {
    if ops == [] then db else Step(Exec(db, ops[..|ops| - 1]), ops[|ops| - 1])
  }

  // ----- what holds in every reachable state -----

  /** A completed sale has positive payments that sum to its total under its own keys,
      one movement per distinct product for its demand, and a fiscal document. */
  predicate SettledSale(db: Db, sale: Uuid)
    requires sale in db.sales
  {
    var s, rows := db.sales[sale], PaymentsOf(db.payments, sale);
    var ps := DetailsOf(rows);
    && s.items != [] && rows != [] && rows == Rows(sale, ps)
    && (forall i :: 0 <= i < |ps| ==> SettledOk(ps[i]))
    && AmountSum(ps) == s.total
    && SaleMoves(db.book.movements, sale) == Demands(s.items, SortedKeys(s.items))
    && sale in db.fiscal
  }

  predicate UntouchedSale(db: Db, sale: Uuid) {
    PaymentsOf(db.payments, sale) == [] && SaleMoves(db.book.movements, sale) == [] && sale !in db.fiscal
  }

  predicate SaleRecord(db: Db, sale: Uuid) {
    if sale in db.sales && db.sales[sale].status == COMPLETED then SettledSale(db, sale) else UntouchedSale(db, sale)
  }

  predicate RowsOk(db: Db) {
    && (forall p :: p in db.products ==> ProductRowOk(db.products[p]))
    && (forall m :: m in db.methods ==> MethodRowOk(db.methods[m]))
    && (forall s :: s in db.sales ==> SaleOk(db.sales[s]))
    && (forall s, t :: s in db.sales && t in db.sales && s != t ==> db.sales[s].key != db.sales[t].key)
    && (forall i, j :: 0 <= i < j < |db.fiscal| ==> db.fiscal[i] != db.fiscal[j])
  }

  ghost predicate Inv(db: Db) {
    && RowsOk(db) && Ledger.Balanced(db.book)
    && (forall i :: 0 <= i < |db.payments| ==> KeyedBySale(db.payments[i]))
    && (forall s: Uuid :: SaleRecord(db, s))
  }

  lemma EmptyInv()
    ensures Inv(EMPTY)
  {
    Ledger.EmptyIsBalanced();
  }

  /** Replacing an unsettled sale's row by an edit of it, or adding a new one. */
  lemma StoreKeepsInv(db: Db, sale: Uuid, t: Sale)
    requires Inv(db) && SaleOk(t) && t.status != COMPLETED
    requires sale in db.sales ==> db.sales[sale].status == OPEN && t.key == db.sales[sale].key
    requires sale !in db.sales ==> !KeyUsed(db.sales, t.key)
    ensures Inv(db.(sales := db.sales[sale := t]))
  {
    var after := db.(sales := db.sales[sale := t]);
    forall s: Uuid ensures SaleRecord(after, s) {
      assert SaleRecord(db, s);
    }
  }

  lemma EditKeepsInv(db: Db, op: Op)
    requires Inv(db) && Perform(db, op).Ok?
    requires op.AddItem? || op.UpdateItem? || op.RemoveItem? || op.Cancel? || op.Create?
    ensures Inv(Perform(db, op).value)
  {
    match op
    case Create(id, key) =>
      if !KeyUsed(db.sales, DecimalText.TrimSpace(key)) { StoreKeepsInv(db, id, NewSale(DecimalText.TrimSpace(key))); }
    case AddItem(sale, at, item, product, quantity, discount) =>
      var s, price := db.sales[sale], db.products[product].price;
      AddItemKeepsSaleOk(s, at, item, product, price, quantity, discount);
      StoreKeepsInv(db, sale, Sales.AddItem(s, at, item, product, price, quantity, discount).value);
    case UpdateItem(sale, item, quantity, discount) =>
      UpdateItemKeepsSaleOk(db.sales[sale], item, quantity, discount);
      StoreKeepsInv(db, sale, Sales.UpdateItem(db.sales[sale], item, quantity, discount).value);
    case RemoveItem(sale, item) =>
      RemoveItemKeepsSaleOk(db.sales[sale], item);
      StoreKeepsInv(db, sale, Sales.RemoveItem(db.sales[sale], item).value);
    case Cancel(sale) =>
      StoreKeepsInv(db, sale, db.sales[sale].(status := CANCELLED));
  }

  lemma MoveStockKeepsInv(db: Db, product: Uuid, kind: Ledger.MovementKind, quantity: int, refType: string, refId: Uuid)
    requires Inv(db) && kind != Ledger.SALE && MoveStock(db, product, kind, quantity, refType, refId).Ok?
    ensures var after := MoveStock(db, product, kind, quantity, refType, refId).value;
      Inv(after) && forall s: Uuid :: SaleMoves(after.book.movements, s) == SaleMoves(db.book.movements, s)
  {
    var after := MoveStock(db, product, kind, quantity, refType, refId).value;
    Ledger.PostKeepsBalance(db.book, product, kind, quantity, DecimalText.TrimSpace(refType), refId);
    var m := after.book.movements[|db.book.movements|];
    forall s: Uuid ensures SaleMoves(after.book.movements, s) == SaleMoves(db.book.movements, s) {
      SaleMovesAppend(db.book.movements, m, s);
    }
    forall s: Uuid ensures SaleRecord(after, s) {
      assert SaleRecord(db, s);
    }
  }

  /** All that is stored about one sale. */
  predicate SameSale(before: Db, after: Db, sale: Uuid) {
    && sale in before.sales && sale in after.sales && before.sales[sale] == after.sales[sale]
    && PaymentsOf(before.payments, sale) == PaymentsOf(after.payments, sale)
    && SaleMoves(before.book.movements, sale) == SaleMoves(after.book.movements, sale)
    && (sale in before.fiscal <==> sale in after.fiscal)
  }

  // ----- checkout -----

  lemma LinesArePositive(s: Sale)
    requires SaleOk(s)
    ensures Positive(s.items)
  {
    forall i | 0 <= i < |s.items| ensures s.items[i].quantity > 0 {
      assert LineOk(s.items[i]);
    }
  }

  /** An open sale finds its movement references free and its demand positive. */
  lemma OpenSaleIsReady(db: Db, sale: Uuid)
    requires Inv(db) && sale in db.sales && db.sales[sale].status != COMPLETED
    ensures Ready(db.book, sale, db.sales[sale].items, SortedKeys(db.sales[sale].items))
  {
    var items, keys := db.sales[sale].items, SortedKeys(db.sales[sale].items);
    assert SaleRecord(db, sale);
    LinesArePositive(db.sales[sale]);
    SortedKeysSpec(items);
    forall i | 0 <= i < |keys|
      ensures Demand(items, keys[i]) > 0
      ensures !Ledger.ReferenceTaken(db.book.movements, keys[i], Ledger.SALE, SALE_REFERENCE, sale)
    {
      assert keys[i] in keys;
      DemandPositive(items, keys[i]);
      NoMovesNoReferences(db.book.movements, sale, keys[i]);
    }
  }

  /** What settling writes, and for whom. */
  ghost predicate SettledInto(db: Db, sale: Uuid, ps: seq<Settled>, after: Db)
    requires sale in db.sales
  {
    && after.sales == db.sales[sale := db.sales[sale].(status := COMPLETED)]
    && after.products == db.products && after.methods == db.methods && after.elsewhere == db.elsewhere
    && after.fiscal == db.fiscal + [sale]
    && after.payments == db.payments + Rows(sale, ps)
    && Ledger.Balanced(after.book)
    && SaleMoves(after.book.movements, sale) == Demands(db.sales[sale].items, SortedKeys(db.sales[sale].items))
    && (forall other: Uuid :: other != sale ==>
          SaleMoves(after.book.movements, other) == SaleMoves(db.book.movements, other))
  }

  lemma SettleRecords(db: Db, sale: Uuid, ps: seq<Settled>)
    requires Inv(db) && sale in db.sales && db.sales[sale].status == OPEN && Settle(db, sale, ps).Ok?
    ensures SettledInto(db, sale, ps, Settle(db, sale, ps).value)
  {
    var items := db.sales[sale].items;
    assert SaleRecord(db, sale);
    ApplyAllPosts(db.book, sale, items, SortedKeys(items));
    CreateFromAppends(db.methods, db.elsewhere, db.payments, sale, ps, 0);
    assert Rows(sale, ps)[0..] == Rows(sale, ps);
  }

  lemma SettleKeepsRows(db: Db, sale: Uuid, ps: seq<Settled>, after: Db)
    requires Inv(db) && sale in db.sales && db.sales[sale].status == OPEN && SettledInto(db, sale, ps, after)
    ensures RowsOk(after)
  {
    assert SaleRecord(db, sale);
    assert SaleOk(db.sales[sale].(status := COMPLETED)) by { assert SaleOk(db.sales[sale]); }
  }

  lemma RowsAreKeyed(table: seq<Payment>, sale: Uuid, ps: seq<Settled>)
    requires forall i :: 0 <= i < |table| ==> KeyedBySale(table[i])
    ensures var all := table + Rows(sale, ps); forall i :: 0 <= i < |all| ==> KeyedBySale(all[i])
  {
    var all := table + Rows(sale, ps);
    forall i | |table| <= i < |all| ensures KeyedBySale(all[i]) {
      assert all[i].key == PaymentKey(sale, i - |table|);
    }
  }

  lemma SettledAfter(db: Db, sale: Uuid, ps: seq<Settled>, after: Db)
    requires SaleRecord(db, sale) && sale in db.sales && db.sales[sale].status == OPEN && db.sales[sale].items != []
    requires ps != [] && (forall i :: 0 <= i < |ps| ==> SettledOk(ps[i])) && AmountSum(ps) == db.sales[sale].total
    requires SettledInto(db, sale, ps, after)
    ensures SettledSale(after, sale)
  {
    OwnRows(db.payments, sale, ps);
    DetailsOfRows(sale, ps);
  }

  lemma OthersAfter(db: Db, sale: Uuid, ps: seq<Settled>, after: Db, other: Uuid)
    requires SaleRecord(db, other) && sale in db.sales && SettledInto(db, sale, ps, after) && other != sale
    ensures SaleRecord(after, other)
    ensures other in db.sales ==> SameSale(db, after, other)
  {
    PaymentsOfRows(db.payments, Rows(sale, ps), sale, other);
    assert PaymentsOf(after.payments, other) == PaymentsOf(db.payments, other);
    assert SaleMoves(after.book.movements, other) == SaleMoves(db.book.movements, other);
    assert other in after.fiscal <==> other in db.fiscal;
  }

  lemma SettleKeepsInv(db: Db, sale: Uuid, ps: seq<Settled>, after: Db)
    requires Inv(db) && sale in db.sales && db.sales[sale].status == OPEN && db.sales[sale].items != []
    requires ps != [] && (forall i :: 0 <= i < |ps| ==> SettledOk(ps[i])) && AmountSum(ps) == db.sales[sale].total
    requires SettledInto(db, sale, ps, after)
    ensures Inv(after)
  {
    assert RowsOk(after) by { SettleKeepsRows(db, sale, ps, after); }
    RowsAreKeyed(db.payments, sale, ps);
    forall s: Uuid ensures SaleRecord(after, s) {
      assert SaleRecord(db, s);
      if s == sale { SettledAfter(db, sale, ps, after); } else { OthersAfter(db, sale, ps, after, s); }
    }
  }

  /** A checkout that goes through settles validated payments of an open sale. */
  lemma CheckoutSettles(db: Db, sale: Uuid, inputs: seq<PaymentInput>) returns (ps: seq<Settled>)
    requires CheckoutSale(db, sale, inputs).Ok?
    ensures sale in db.sales && db.sales[sale].status == OPEN && db.sales[sale].items != []
    ensures CheckAll(db.methods, inputs) == Ok(ps) && |ps| == |inputs| > 0
    ensures (forall i :: 0 <= i < |ps| ==> SettledOk(ps[i])) && AmountSum(ps) == db.sales[sale].total
    ensures CheckoutSale(db, sale, inputs) == Settle(db, sale, ps)
  {
    ps := ValidatePayments(db.methods, db.sales[sale].total, inputs).value;
    CheckAllSettles(db.methods, inputs);
  }

  lemma CheckoutKeepsInv(db: Db, sale: Uuid, inputs: seq<PaymentInput>)
    requires Inv(db) && CheckoutSale(db, sale, inputs).Ok?
    ensures Inv(CheckoutSale(db, sale, inputs).value)
  {
    var ps := CheckoutSettles(db, sale, inputs);
    SettleRecords(db, sale, ps);
    SettleKeepsInv(db, sale, ps, Settle(db, sale, ps).value);
  }

  // ----- runs -----

  lemma StepKeepsInv(db: Db, op: Op)
    requires Inv(db)
    ensures Inv(Step(db, op))
  {
    if Perform(db, op).Ok? {
      match op
      case Checkout(sale, inputs) => CheckoutKeepsInv(db, sale, inputs);
      case CreateEntry(product, quantity, refType, refId) =>
        MoveStockKeepsInv(db, product, Ledger.PURCHASE, quantity, refType, refId);
      case CreateAdjustment(product, inward, quantity, refType, refId) =>
        var kind := if inward then Ledger.ADJUSTMENT_IN else Ledger.ADJUSTMENT_OUT;
        MoveStockKeepsInv(db, product, kind, quantity, refType, refId);
      case SetProduct(_, _) =>
        forall s: Uuid ensures SaleRecord(Step(db, op), s) { assert SaleRecord(db, s); }
      case SetMethod(_, _) =>
        forall s: Uuid ensures SaleRecord(Step(db, op), s) { assert SaleRecord(db, s); }
      case PayElsewhere(_, _) =>
        forall s: Uuid ensures SaleRecord(Step(db, op), s) { assert SaleRecord(db, s); }
      case _ => EditKeepsInv(db, op);
    }
  }

  /** The books balance, every sale's totals are right and every completed sale is
      settled exactly, after every sequence of commands. */
  lemma {:induction false} EveryRunKeepsInv(db: Db, ops: seq<Op>)
    requires Inv(db)
    ensures Inv(Exec(db, ops))
  {
    if ops != [] {
      EveryRunKeepsInv(db, ops[..|ops| - 1]);
      StepKeepsInv(Exec(db, ops[..|ops| - 1]), ops[|ops| - 1]);
    }
  }

  lemma ReachableStatesAreGood(ops: seq<Op>)
    ensures Inv(Exec(EMPTY, ops))
  {
    EmptyInv();
    EveryRunKeepsInv(EMPTY, ops);
  }

  // ----- provider references -----

  lemma StepKeepsReferences(db: Db, op: Op)
    requires ReferencesUnique(db.elsewhere, db.payments)
    ensures ReferencesUnique(Step(db, op).elsewhere, Step(db, op).payments)
  {
    if Perform(db, op).Ok? && op.Checkout? {
      var ps := CheckoutSettles(db, op.sale, op.inputs);
      CreateFromKeepsReferences(db.methods, db.elsewhere, db.payments, op.sale, ps, 0);
    }
  }

  /** Whatever this store and the others record, no reference of a method is used twice. */
  lemma {:induction false} ReferencesNeverRepeat(db: Db, ops: seq<Op>)
    requires ReferencesUnique(db.elsewhere, db.payments)
    ensures ReferencesUnique(Exec(db, ops).elsewhere, Exec(db, ops).payments)
  {
    if ops != [] {
      ReferencesNeverRepeat(db, ops[..|ops| - 1]);
      StepKeepsReferences(Exec(db, ops[..|ops| - 1]), ops[|ops| - 1]);
    }
  }

  // ----- closed sales -----

  lemma EditLeavesClosed(db: Db, op: Op, sale: Uuid)
    requires Perform(db, op).Ok? && sale in db.sales && db.sales[sale].status != OPEN
    requires !op.Checkout? && !op.CreateEntry? && !op.CreateAdjustment?
    ensures SameSale(db, Perform(db, op).value, sale)
  {
  }

  lemma CheckoutLeavesOthers(db: Db, sale: Uuid, inputs: seq<PaymentInput>, other: Uuid)
    requires Inv(db) && CheckoutSale(db, sale, inputs).Ok? && other in db.sales && db.sales[other].status != OPEN
    ensures SameSale(db, CheckoutSale(db, sale, inputs).value, other)
  {
    var ps := CheckoutSettles(db, sale, inputs);
    SettleRecords(db, sale, ps);
    assert SaleRecord(db, other);
    OthersAfter(db, sale, ps, Settle(db, sale, ps).value, other);
  }

  lemma StockLeavesClosed(db: Db, op: Op, sale: Uuid)
    requires Inv(db) && Perform(db, op).Ok? && sale in db.sales && (op.CreateEntry? || op.CreateAdjustment?)
    ensures SameSale(db, Perform(db, op).value, sale)
  {
    match op
    case CreateEntry(product, quantity, refType, refId) =>
      MoveStockKeepsInv(db, product, Ledger.PURCHASE, quantity, refType, refId);
    case CreateAdjustment(product, inward, quantity, refType, refId) =>
      var kind := if inward then Ledger.ADJUSTMENT_IN else Ledger.ADJUSTMENT_OUT;
      MoveStockKeepsInv(db, product, kind, quantity, refType, refId);
  }

  lemma ClosedSaleFrozenByStep(db: Db, op: Op, sale: Uuid)
    requires Inv(db) && sale in db.sales && db.sales[sale].status != OPEN
    ensures SameSale(db, Step(db, op), sale)
  {
    if Perform(db, op).Ok? {
      match op
      case Checkout(other, inputs) => CheckoutLeavesOthers(db, other, inputs, sale);
      case CreateEntry(_, _, _, _) => StockLeavesClosed(db, op, sale);
      case CreateAdjustment(_, _, _, _, _) => StockLeavesClosed(db, op, sale);
      case _ => EditLeavesClosed(db, op, sale);
    }
  }

  /** A completed or cancelled sale keeps its row, items, totals, payments, movements
      and document through every later run. */
  lemma {:induction false} ClosedSaleFrozen(db: Db, ops: seq<Op>, sale: Uuid)
    requires Inv(db) && sale in db.sales && db.sales[sale].status != OPEN
    ensures SameSale(db, Exec(db, ops), sale)
  {
    if ops != [] {
      ClosedSaleFrozen(db, ops[..|ops| - 1], sale);
      EveryRunKeepsInv(db, ops[..|ops| - 1]);
      ClosedSaleFrozenByStep(Exec(db, ops[..|ops| - 1]), ops[|ops| - 1], sale);
    }
  }

  /** However a run goes on, a completed sale is never checked out or cancelled again. */
  lemma NoSecondCheckout(db: Db, sale: Uuid, inputs: seq<PaymentInput>, ops: seq<Op>, again: seq<PaymentInput>)
    requires Inv(db) && CheckoutSale(db, sale, inputs).Ok? && InputError(again).None?
    ensures var later := Exec(CheckoutSale(db, sale, inputs).value, ops);
      CheckoutSale(later, sale, again) == Err(SaleAlreadyCompleted) && CancelSale(later, sale) == Err(SaleNotOpen)
  {
    var ps := CheckoutSettles(db, sale, inputs);
    SettleRecords(db, sale, ps);
    CheckoutKeepsInv(db, sale, inputs);
    ClosedSaleFrozen(CheckoutSale(db, sale, inputs).value, ops, sale);
  }

  // ----- when a checkout goes through -----

  lemma {:induction false} CheckAllIff(methods: map<Uuid, Method>, inputs: seq<PaymentInput>)
    ensures CheckAll(methods, inputs).Ok? <==> forall i :: 0 <= i < |inputs| ==> CheckPayment(methods, inputs[i]).Ok?
  {
    if inputs != [] {
      CheckAllIff(methods, inputs[1..]);
      if CheckAll(methods, inputs).Ok? { CheckAllSettles(methods, inputs); }
      assert forall i :: 0 <= i < |inputs| - 1 ==> inputs[1..][i] == inputs[i + 1];
    }
  }

  /** When settling works: stock covers the demand and the payment rows can be written. */
  lemma SettleIff(db: Db, sale: Uuid, ps: seq<Settled>)
    requires Inv(db) && sale in db.sales && db.sales[sale].status == OPEN
    ensures var r, items := Settle(db, sale, ps), db.sales[sale].items;
      && (r.Ok? <==> Covered(db.book, items, SortedKeys(items))
                     && Writable(db.methods, db.elsewhere, db.payments, ps, 0))
      && (r.Ok? ==> r.value.book.stock == Taken(db.book.stock, items, SortedKeys(items)))
      && (r.Err? ==> r.error in {InventoryNotFound, InsufficientInventory, DatabaseError})
  {
    var items := db.sales[sale].items;
    OpenSaleIsReady(db, sale);
    ApplyAllIff(db.book, sale, items, SortedKeys(items));
    if ApplyInventory(db.book, sale, items).Err? { ApplyAllErrors(db.book, sale, items, SortedKeys(items)); }
    assert PaymentsOf(db.payments, sale) == [] by { assert SaleRecord(db, sale); }
    KeysAreFree(db.payments, sale, |ps|);
    CreateFromIff(db.methods, db.elsewhere, db.payments, sale, ps, 0);
  }

  /** In every reachable state a checkout goes through exactly when the sale is open and
      not empty, every payment is acceptable, the amounts sum to the total, the stock of
      every product covers its demand and the payment rows can be written: no other
      check of the code ever refuses. */
  lemma CheckoutSucceedsIff(db: Db, sale: Uuid, inputs: seq<PaymentInput>)
    requires Inv(db)
    ensures CheckoutSale(db, sale, inputs).Ok? <==>
      && InputError(inputs).None? && inputs != []
      && sale in db.sales && db.sales[sale].status == OPEN && db.sales[sale].items != []
      && (forall i :: 0 <= i < |inputs| ==> CheckPayment(db.methods, inputs[i]).Ok?)
      && var ps := CheckAll(db.methods, inputs);
      && ps.Ok? && AmountSum(ps.value) == db.sales[sale].total
      && Covered(db.book, db.sales[sale].items, SortedKeys(db.sales[sale].items))
      && Writable(db.methods, db.elsewhere, db.payments, ps.value, 0)
  {
    CheckAllIff(db.methods, inputs);
    if sale in db.sales && db.sales[sale].status == OPEN && CheckAll(db.methods, inputs).Ok? {
      SaleOkPassesCheckout(db.sales[sale]);
      SettleIff(db, sale, CheckAll(db.methods, inputs).value);
    }
  }

  /** What a checkout changes: the stock falls by the demand and only this sale closes. */
  lemma CheckoutEffect(db: Db, sale: Uuid, inputs: seq<PaymentInput>)
    requires Inv(db) && CheckoutSale(db, sale, inputs).Ok?
    ensures var after, s := CheckoutSale(db, sale, inputs).value, db.sales[sale];
      && after.sales == db.sales[sale := s.(status := COMPLETED)]
      && after.book.stock == Taken(db.book.stock, s.items, SortedKeys(s.items))
      && after.products == db.products && after.methods == db.methods && after.elsewhere == db.elsewhere
      && after.payments == db.payments + Rows(sale, CheckAll(db.methods, inputs).value)
      && after.fiscal == db.fiscal + [sale]
  {
    var ps := CheckoutSettles(db, sale, inputs);
    SettleIff(db, sale, ps);
    SettleRecords(db, sale, ps);
  }

  /** In a reachable state the totals check and the movement's duplicate reference never
      refuse a checkout; the status errors mean what they say. */
  lemma DeadErrors(db: Db, sale: Uuid, inputs: seq<PaymentInput>)
    requires Inv(db) && CheckoutSale(db, sale, inputs).Err?
    ensures var e := CheckoutSale(db, sale, inputs).error;
      && e != TotalsInconsistent
      && (e == SaleAlreadyCompleted ==> sale in db.sales && db.sales[sale].status == COMPLETED)
      && (e == SaleNotOpen ==> sale in db.sales && db.sales[sale].status == CANCELLED)
  {
    if sale in db.sales && db.sales[sale].status == OPEN {
      SaleOkPassesCheckout(db.sales[sale]);
      if CheckAll(db.methods, inputs).Ok? {
        SettleIff(db, sale, CheckAll(db.methods, inputs).value);
      } else {
        CheckAllErrors(db.methods, inputs);
      }
    }
  }

  lemma {:induction false} ApplyAllErrors(b: Ledger.Book, sale: Uuid, items: seq<Item>, keys: seq<Uuid>)
    requires Ready(b, sale, items, keys) && ApplyAll(b, sale, items, keys).Err?
    ensures ApplyAll(b, sale, items, keys).error in {InventoryNotFound, InsufficientInventory}
    decreases |keys|
  {
    FirstKey(b, sale, items, keys);
    var r := Ledger.Post(b, keys[0], Ledger.SALE, Demand(items, keys[0]), SALE_REFERENCE, sale);
    if r.Ok? { ApplyAllErrors(r.value, sale, items, keys[1..]); }
  }

  lemma {:induction false} CheckAllErrors(methods: map<Uuid, Method>, inputs: seq<PaymentInput>)
    requires CheckAll(methods, inputs).Err?
    ensures CheckAll(methods, inputs).error !in {TotalsInconsistent, SaleAlreadyCompleted, SaleNotOpen}
  {
    if CheckPayment(methods, inputs[0]).Ok? { CheckAllErrors(methods, inputs[1..]); }
  }

  /** Creating with a used key changes nothing; with a free one it adds an empty open
      sale. Either way exactly one sale has the key. */
  lemma CreateIsIdempotent(db: Db, id: Uuid, key: string, again: Uuid)
    requires Inv(db) && CreateSale(db, id, key).Ok?
    ensures var after := CreateSale(db, id, key).value;
      && CreateSale(after, again, key) == Ok(after)
      && KeyUsed(after.sales, DecimalText.TrimSpace(key))
      && (forall s :: s in db.sales ==> s in after.sales && after.sales[s] == db.sales[s])
      && (forall s, t :: s in after.sales && t in after.sales && after.sales[s].key == after.sales[t].key ==> s == t)
  {
    var k := DecimalText.TrimSpace(key);
    if !KeyUsed(db.sales, k) {
      assert CreateSale(db, id, key).value.sales[id].key == k;
    }
  }
}
