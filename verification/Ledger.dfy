/**
 The stock table and its movement ledger, for one store: every change of a stock row
 is posted together with one movement row.
 */
module Ledger {
  import opened Results
  import opened Identifiers

  /** SALE_CANCELLATION exists in the database type, but no code writes it. */
  datatype MovementKind = PURCHASE | SALE | ADJUSTMENT_IN | ADJUSTMENT_OUT

  /** Quantities are in thousandths. */
  datatype Movement = Movement(product: Uuid, kind: MovementKind, quantity: int, previous: int, current: int,
                               refType: string, refId: Uuid)

  datatype Book = Book(stock: map<Uuid, int>, movements: seq<Movement>)

  datatype LedgerError = StockNotFound | InsufficientStock | DuplicateReference | DatabaseError

  /** Greatest scaled value of a NUMERIC(15, _) column. */
  const MAX_COLUMN: int := 999_999_999_999_999
  const MAX_REFERENCE_TYPE: nat := 30

  const EMPTY := Book(map[], [])

  function Sign(kind: MovementKind): int {
    if kind == PURCHASE || kind == ADJUSTMENT_IN then 1 else -1
  }

  function StockOf(b: Book, p: Uuid): int {
    if p in b.stock then b.stock[p] else 0
  }

  predicate SameReference(m: Movement, p: Uuid, kind: MovementKind, refType: string, refId: Uuid) {
    m.product == p && m.kind == kind && m.refType == refType && m.refId == refId
  }

  /** The columns of the unique index on movements. */
  predicate ReferenceTaken(ms: seq<Movement>, p: Uuid, kind: MovementKind, refType: string, refId: Uuid) {
    exists i :: 0 <= i < |ms| && SameReference(ms[i], p, kind, refType, refId)
  }

  /** The stock row after the update statement: an increase creates a missing row, a
      decrease touches only a row that covers the quantity. */
  function Update(b: Book, p: Uuid, kind: MovementKind, qty: int): Result<int, LedgerError> {
    if Sign(kind) > 0 then
      if qty <= 0 || StockOf(b, p) + qty > MAX_COLUMN then Err(DatabaseError) else Ok(StockOf(b, p) + qty)
    else if p !in b.stock then Err(StockNotFound)
    else if qty <= 0 || b.stock[p] < qty then Err(InsufficientStock)
    else Ok(b.stock[p] - qty)
  }

  /** One stock update and its movement row; any failure leaves nothing behind. */
  function Post(b: Book, p: Uuid, kind: MovementKind, qty: int, refType: string, refId: Uuid)
      : Result<Book, LedgerError>
  {
    match Update(b, p, kind, qty)
    case Err(e) => Err(e)
    case Ok(current) =>
      if |refType| > MAX_REFERENCE_TYPE then Err(DatabaseError)
      else if ReferenceTaken(b.movements, p, kind, refType, refId) then Err(DuplicateReference)
      else
        var m := Movement(p, kind, qty, StockOf(b, p), current, refType, refId);
        Ok(Book(b.stock[p := current], b.movements + [m]))
  }

  // ----- what the ledger means -----

  /** The signed sum of a product's movements. */
  function Balance(ms: seq<Movement>, p: Uuid): int {
    if ms == [] then 0
    else
      var m := ms[|ms| - 1];
      Balance(ms[..|ms| - 1], p) + if m.product == p then Sign(m.kind) * m.quantity else 0
  }

  predicate MovementOk(ms: seq<Movement>, i: nat)
    requires i < |ms|
  {
    var m := ms[i];
    m.quantity > 0 && m.previous == Balance(ms[..i], m.product) && m.current == m.previous + Sign(m.kind) * m.quantity
    && 0 <= m.previous <= MAX_COLUMN && 0 <= m.current <= MAX_COLUMN
  }

  predicate UniqueReferences(ms: seq<Movement>) {
    forall i, j :: 0 <= i < j < |ms| ==> !SameReference(ms[j], ms[i].product, ms[i].kind, ms[i].refType, ms[i].refId)
  }

  ghost predicate Balanced(b: Book) {
    && (forall p: Uuid :: StockOf(b, p) == Balance(b.movements, p) && 0 <= StockOf(b, p) <= MAX_COLUMN)
    && (forall i :: 0 <= i < |b.movements| ==> MovementOk(b.movements, i))
    && UniqueReferences(b.movements)
  }

  lemma EmptyIsBalanced()
    ensures Balanced(EMPTY)
  {
  }

  lemma BalanceAppend(ms: seq<Movement>, m: Movement, p: Uuid)
    ensures Balance(ms + [m], p) == Balance(ms, p) + if m.product == p then Sign(m.kind) * m.quantity else 0
  {
    assert (ms + [m])[..|ms|] == ms;
  }

  lemma MovementsStayOk(ms: seq<Movement>, m: Movement)
    requires forall i :: 0 <= i < |ms| ==> MovementOk(ms, i)
    ensures forall i :: 0 <= i < |ms| ==> MovementOk(ms + [m], i)
  {
    forall i | 0 <= i < |ms| ensures MovementOk(ms + [m], i) {
      assert MovementOk(ms, i);
      assert (ms + [m])[..i] == ms[..i];
    }
  }

  /** Every posting keeps the books: stock equals the signed sum of its movements,
      each movement continues from the balance before it, nothing goes negative. */
  lemma PostKeepsBalance(b: Book, p: Uuid, kind: MovementKind, qty: int, refType: string, refId: Uuid)
    requires Balanced(b) && Post(b, p, kind, qty, refType, refId).Ok?
    ensures Balanced(Post(b, p, kind, qty, refType, refId).value)
  {
    var after := Post(b, p, kind, qty, refType, refId).value;
    var m := after.movements[|b.movements|];
    forall q: Uuid ensures StockOf(after, q) == Balance(after.movements, q) && 0 <= StockOf(after, q) <= MAX_COLUMN {
      BalanceAppend(b.movements, m, q);
      assert StockOf(b, q) == Balance(b.movements, q);
    }
    assert MovementOk(after.movements, |b.movements|) by {
      assert after.movements[..|b.movements|] == b.movements;
      assert StockOf(b, p) == Balance(b.movements, p);
    }
    MovementsStayOk(b.movements, m);
    assert UniqueReferences(after.movements) by {
      forall i, j | 0 <= i < j < |after.movements|
        ensures !SameReference(after.movements[j], after.movements[i].product, after.movements[i].kind,
                               after.movements[i].refType, after.movements[i].refId)
      {
        if j == |b.movements| {
          assert !SameReference(b.movements[i], p, kind, refType, refId);
        } else {
          assert after.movements[i] == b.movements[i] && after.movements[j] == b.movements[j];
        }
      }
    }
  }

  lemma {:induction false} BalanceSkips(ms: seq<Movement>, i: nat, j: nat, p: Uuid)
    requires i <= j <= |ms| && forall k :: i <= k < j ==> ms[k].product != p
    ensures Balance(ms[..j], p) == Balance(ms[..i], p)
  {
    if i < j {
      BalanceSkips(ms, i, j - 1, p);
      assert ms[..j] == ms[..j - 1] + [ms[j - 1]];
      BalanceAppend(ms[..j - 1], ms[j - 1], p);
    }
  }

  /** Consecutive movements of one product chain: the next starts where the last ended,
      the first starts at zero and the last ends at the stock row. */
  lemma MovementsChain(b: Book, i: nat, j: nat)
    requires Balanced(b) && i < j < |b.movements|
    requires b.movements[i].product == b.movements[j].product
    requires forall k :: i < k < j ==> b.movements[k].product != b.movements[i].product
    ensures b.movements[j].previous == b.movements[i].current
  {
    var ms, p := b.movements, b.movements[i].product;
    assert MovementOk(ms, i) && MovementOk(ms, j);
    BalanceSkips(ms, i + 1, j, p);
    assert ms[..i + 1] == ms[..i] + [ms[i]];
    BalanceAppend(ms[..i], ms[i], p);
  }

  lemma ChainEnds(b: Book, i: nat)
    requires Balanced(b) && i < |b.movements|
    ensures (forall k :: 0 <= k < i ==> b.movements[k].product != b.movements[i].product)
            ==> b.movements[i].previous == 0
    ensures (forall k :: i < k < |b.movements| ==> b.movements[k].product != b.movements[i].product)
            ==> StockOf(b, b.movements[i].product) == b.movements[i].current
  {
    var ms, p := b.movements, b.movements[i].product;
    assert MovementOk(ms, i);
    if forall k :: 0 <= k < i ==> ms[k].product != p {
      BalanceSkips(ms, 0, i, p);
    }
    if forall k :: i < k < |ms| ==> ms[k].product != p {
      BalanceSkips(ms, i + 1, |ms|, p);
      assert ms[..i + 1] == ms[..i] + [ms[i]] && ms[..|ms|] == ms;
      BalanceAppend(ms[..i], ms[i], p);
      assert StockOf(b, p) == Balance(ms, p);
    }
  }
}
