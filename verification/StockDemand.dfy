/**
 What a checkout takes from stock: the demand per product, aggregated over the sale's
 lines, applied to the ledger in ascending key order.
 */
module StockDemand {
  import opened Results
  import opened Identifiers
  import opened Ledger
  import opened Sales

  /** The summed quantity of a product's lines. */
  function Demand(items: seq<Item>, p: Uuid): int {
    if items == [] then 0
    else Demand(items[..|items| - 1], p) + if items[|items| - 1].product == p then items[|items| - 1].quantity else 0
  }

  predicate Demanded(items: seq<Item>, p: Uuid) {
    exists i :: 0 <= i < |items| && items[i].product == p
  }

  predicate Ascending(keys: seq<Uuid>) {
    forall i, j :: 0 <= i < j < |keys| ==> keys[i] < keys[j]
  }

  function InsertKey(keys: seq<Uuid>, k: Uuid): seq<Uuid> {
    if keys == [] || k < keys[0] then [k] + keys
    else if k == keys[0] then keys
    else [keys[0]] + InsertKey(keys[1..], k)
  }

  lemma {:induction false} InsertKeyElements(keys: seq<Uuid>, k: Uuid, x: Uuid)
    ensures x in InsertKey(keys, k) <==> x in keys || x == k
  {
    if keys != [] && k > keys[0] {
      InsertKeyElements(keys[1..], k, x);
      assert keys == [keys[0]] + keys[1..];
    }
  }

  lemma AscendingCons(k: Uuid, rest: seq<Uuid>)
    requires Ascending(rest) && forall x :: x in rest ==> k < x
    ensures Ascending([k] + rest)
  {
    var keys := [k] + rest;
    forall i, j | 0 <= i < j < |keys| ensures keys[i] < keys[j] {
      assert rest[j - 1] in rest;
    }
  }

  lemma AscendingTail(keys: seq<Uuid>)
    requires Ascending(keys) && keys != []
    ensures Ascending(keys[1..]) && forall x :: x in keys[1..] ==> keys[0] < x
  {
  }

  lemma {:induction false} InsertKeyAscends(keys: seq<Uuid>, k: Uuid)
    requires Ascending(keys)
    ensures Ascending(InsertKey(keys, k))
  {
    if keys == [] {
    } else if k < keys[0] {
      AscendingTail(keys);
      forall x | x in keys ensures k < x { assert x == keys[0] || x in keys[1..]; }
      AscendingCons(k, keys);
    } else if k > keys[0] {
      AscendingTail(keys);
      InsertKeyAscends(keys[1..], k);
      forall x | x in InsertKey(keys[1..], k) ensures keys[0] < x { InsertKeyElements(keys[1..], k, x); }
      AscendingCons(keys[0], InsertKey(keys[1..], k));
    }
  }

  /** The products of the lines, once each, in ascending order. */
  function SortedKeys(items: seq<Item>): seq<Uuid> {
    if items == [] then [] else InsertKey(SortedKeys(items[..|items| - 1]), items[|items| - 1].product)
  }

  lemma {:induction false} SortedKeysSpec(items: seq<Item>)
    ensures Ascending(SortedKeys(items)) && forall p :: p in SortedKeys(items) <==> Demanded(items, p)
  {
    if items != [] {
      var init, last := items[..|items| - 1], items[|items| - 1];
      SortedKeysSpec(init);
      InsertKeyAscends(SortedKeys(init), last.product);
      forall p ensures p in SortedKeys(items) <==> Demanded(items, p) {
        InsertKeyElements(SortedKeys(init), last.product, p);
        assert items == init + [last];
        DemandedAppend(init, last, p);
      }
    }
  }

  lemma DemandedAppend(init: seq<Item>, last: Item, p: Uuid)
    ensures Demanded(init + [last], p) <==> Demanded(init, p) || p == last.product
  {
    var items := init + [last];
    assert items[|init|] == last;
    if Demanded(init, p) {
      var i :| 0 <= i < |init| && init[i].product == p;
      assert items[i].product == p;
    }
  }

  const SALE_REFERENCE := "sale"

  /** The loop over the sorted keys: the first key that fails decides the error. */
  function ApplyAll(b: Book, sale: Uuid, items: seq<Item>, keys: seq<Uuid>): Result<Book, PosError>
    decreases |keys|
  {
    if keys == [] then Ok(b)
    else
      match Post(b, keys[0], MovementKind.SALE, Demand(items, keys[0]), SALE_REFERENCE, sale)
      case Err(e) => Err(CheckoutError(e))
      case Ok(next) => ApplyAll(next, sale, items, keys[1..])
  }

  function CheckoutError(e: LedgerError): PosError {
    match e
    case StockNotFound => InventoryNotFound
    case InsufficientStock => InsufficientInventory
    case DuplicateReference => SaleAlreadyCompleted
    case DatabaseError => PosError.DatabaseError
  }

  function ApplyInventory(b: Book, sale: Uuid, items: seq<Item>): Result<Book, PosError> {
    ApplyAll(b, sale, items, SortedKeys(items))
  }

  /** The (product, quantity) pairs a sale posted, in ledger order. */
  function SaleMoves(ms: seq<Movement>, sale: Uuid): seq<(Uuid, int)> {
    if ms == [] then []
    else
      var m := ms[|ms| - 1];
      SaleMoves(ms[..|ms| - 1], sale) + if IsSaleMove(m, sale) then [(m.product, m.quantity)] else []
  }

  predicate IsSaleMove(m: Movement, sale: Uuid) {
    m.kind == MovementKind.SALE && m.refType == SALE_REFERENCE && m.refId == sale
  }

  /** One pair per distinct product, for its demand. */
  function Demands(items: seq<Item>, keys: seq<Uuid>): seq<(Uuid, int)> {
    seq(|keys|, i requires 0 <= i < |keys| => (keys[i], Demand(items, keys[i])))
  }

  predicate Covered(b: Book, items: seq<Item>, keys: seq<Uuid>) {
    forall i :: 0 <= i < |keys| ==> keys[i] in b.stock && Demand(items, keys[i]) <= b.stock[keys[i]]
  }

  // ----- facts about demand -----

  predicate Positive(items: seq<Item>) {
    forall i :: 0 <= i < |items| ==> items[i].quantity > 0
  }

  lemma {:induction false} DemandPositive(items: seq<Item>, p: Uuid)
    requires Positive(items)
    ensures Demand(items, p) >= 0
    ensures Demand(items, p) > 0 <==> Demanded(items, p)
  {
    if items != [] {
      var init, last := items[..|items| - 1], items[|items| - 1];
      DemandPositive(init, p);
      assert items == init + [last];
      DemandedAppend(init, last, p);
    }
  }

  lemma {:induction false} DemandWithout(items: seq<Item>, i: nat, p: Uuid)
    requires i < |items|
    ensures Demand(items[..i] + items[i + 1..], p)
         == Demand(items, p) - if items[i].product == p then items[i].quantity else 0
  {
    var init := items[..|items| - 1];
    if i == |items| - 1 {
      assert items[..i] + items[i + 1..] == init;
    } else {
      DemandWithout(init, i, p);
      var rest := items[..i] + items[i + 1..];
      assert rest[..|rest| - 1] == init[..i] + init[i + 1..];
    }
  }

  lemma Without(items: seq<Item>, i: nat)
    requires i < |items|
    ensures multiset(items[..i] + items[i + 1..]) == multiset(items) - multiset{items[i]}
  {
    assert items == items[..i] + [items[i]] + items[i + 1..];
  }

  /** The order of the lines does not matter. */
  lemma {:induction false} DemandOfPermutation(items: seq<Item>, other: seq<Item>, p: Uuid)
    requires multiset(items) == multiset(other)
    ensures Demand(items, p) == Demand(other, p)
    decreases |items|
  {
    if items == [] {
      assert |multiset(other)| == 0;
    } else {
      var last := |items| - 1;
      assert items[last] in multiset(other);
      var i :| 0 <= i < |other| && other[i] == items[last];
      Without(items, last);
      Without(other, i);
      DemandOfPermutation(items[..last] + items[last + 1..], other[..i] + other[i + 1..], p);
      DemandWithout(items, last, p);
      DemandWithout(other, i, p);
    }
  }

  lemma {:induction false} AscendingUnique(a: seq<Uuid>, b: seq<Uuid>)
    requires Ascending(a) && Ascending(b) && forall x :: x in a <==> x in b
    ensures a == b
    decreases |a|
  {
    assert b != [] ==> b[0] in b;
    if a != [] {
      assert a[0] in b;
      AscendingTail(a);
      AscendingTail(b);
      assert a[0] == b[0] by { assert b[0] in a; }
      assert a == [a[0]] + a[1..] && b == [b[0]] + b[1..];
      forall x ensures x in a[1..] <==> x in b[1..] {
        assert x in a <==> x == a[0] || x in a[1..];
        assert x in b <==> x == b[0] || x in b[1..];
      }
      AscendingUnique(a[1..], b[1..]);
    }
  }

  /** Lists of lines with the same demand are treated alike: neither the order of the
      lines nor their splitting or merging changes the outcome. */
  lemma OnlyDemandMatters(b: Book, sale: Uuid, items: seq<Item>, other: seq<Item>)
    requires Positive(items) && Positive(other)
    requires forall p :: Demand(items, p) == Demand(other, p)
    ensures ApplyInventory(b, sale, items) == ApplyInventory(b, sale, other)
  {
    SortedKeysSpec(items);
    SortedKeysSpec(other);
    forall p ensures p in SortedKeys(items) <==> p in SortedKeys(other) {
      DemandPositive(items, p);
      DemandPositive(other, p);
    }
    AscendingUnique(SortedKeys(items), SortedKeys(other));
    SameDemandSameResult(b, sale, items, other, SortedKeys(items));
  }

  lemma {:induction false} SameDemandSameResult(b: Book, sale: Uuid, items: seq<Item>, other: seq<Item>,
                                                keys: seq<Uuid>)
    requires forall p :: Demand(items, p) == Demand(other, p)
    ensures ApplyAll(b, sale, items, keys) == ApplyAll(b, sale, other, keys)
    decreases |keys|
  {
    if keys != [] {
      var r := Post(b, keys[0], MovementKind.SALE, Demand(items, keys[0]), SALE_REFERENCE, sale);
      if r.Ok? { SameDemandSameResult(r.value, sale, items, other, keys[1..]); }
    }
  }

  lemma OrderOfLinesDoesNotMatter(b: Book, sale: Uuid, items: seq<Item>, other: seq<Item>)
    requires Positive(items) && multiset(items) == multiset(other)
    ensures ApplyInventory(b, sale, items) == ApplyInventory(b, sale, other)
  {
    forall i | 0 <= i < |other| ensures other[i].quantity > 0 {
      assert other[i] in multiset(items);
    }
    forall p ensures Demand(items, p) == Demand(other, p) { DemandOfPermutation(items, other, p); }
    OnlyDemandMatters(b, sale, items, other);
  }

  // ----- what applying the demand does -----

  lemma SaleMovesAppend(ms: seq<Movement>, m: Movement, sale: Uuid)
    ensures SaleMoves(ms + [m], sale)
         == SaleMoves(ms, sale) + if IsSaleMove(m, sale) then [(m.product, m.quantity)] else []
  {
    assert (ms + [m])[..|ms|] == ms;
  }

  /** A sale that posted nothing has all its references free. */
  lemma {:induction false} NoMovesNoReferences(ms: seq<Movement>, sale: Uuid, p: Uuid)
    requires SaleMoves(ms, sale) == []
    ensures !ReferenceTaken(ms, p, MovementKind.SALE, SALE_REFERENCE, sale)
  {
    if ms != [] {
      NoMovesNoReferences(ms[..|ms| - 1], sale, p);
      forall i | 0 <= i < |ms| ensures !SameReference(ms[i], p, MovementKind.SALE, SALE_REFERENCE, sale) {
        if i < |ms| - 1 { assert ms[i] == ms[..|ms| - 1][i]; }
      }
    }
  }

  predicate ReferencesFree(ms: seq<Movement>, sale: Uuid, keys: seq<Uuid>) {
    forall i :: 0 <= i < |keys| ==> !ReferenceTaken(ms, keys[i], MovementKind.SALE, SALE_REFERENCE, sale)
  }

  lemma OnePosting(b: Book, sale: Uuid, p: Uuid, qty: int)
    requires qty > 0
    requires !ReferenceTaken(b.movements, p, MovementKind.SALE, SALE_REFERENCE, sale)
    ensures var r := Post(b, p, MovementKind.SALE, qty, SALE_REFERENCE, sale);
      && (r.Ok? <==> p in b.stock && qty <= b.stock[p])
      && (r.Ok? ==> r.value.stock == b.stock[p := b.stock[p] - qty])
      && (r.Err? ==> r.error == if p in b.stock then InsufficientStock else StockNotFound)
  {
  }

  lemma ReferencesStayFree(b: Book, sale: Uuid, keys: seq<Uuid>, m: Movement)
    requires ReferencesFree(b.movements, sale, keys) && keys != [] && Ascending(keys) && m.product == keys[0]
    ensures ReferencesFree(b.movements + [m], sale, keys[1..])
  {
    forall i | 0 <= i < |keys| - 1
      ensures !ReferenceTaken(b.movements + [m], keys[1..][i], MovementKind.SALE, SALE_REFERENCE, sale)
    {
      assert !ReferenceTaken(b.movements, keys[i + 1], MovementKind.SALE, SALE_REFERENCE, sale);
    }
  }

  /** With the first product covered and taken, the rest is covered as before. */
  lemma CoveredTail(b: Book, after: Book, items: seq<Item>, keys: seq<Uuid>)
    requires keys != [] && Ascending(keys) && keys[0] in b.stock && Demand(items, keys[0]) <= b.stock[keys[0]]
    requires after.stock == b.stock[keys[0] := b.stock[keys[0]] - Demand(items, keys[0])]
    ensures Covered(b, items, keys) <==> Covered(after, items, keys[1..])
  {
    if Covered(b, items, keys) {
      forall i | 0 <= i < |keys| - 1
        ensures keys[1..][i] in after.stock && Demand(items, keys[1..][i]) <= after.stock[keys[1..][i]]
      {
        assert keys[1..][i] == keys[i + 1] != keys[0];
      }
    }
    if Covered(after, items, keys[1..]) {
      forall i | 0 <= i < |keys| ensures keys[i] in b.stock && Demand(items, keys[i]) <= b.stock[keys[i]] {
        if i > 0 { assert keys[1..][i - 1] == keys[i]; }
      }
    }
  }

  predicate Ready(b: Book, sale: Uuid, items: seq<Item>, keys: seq<Uuid>) {
    && Ascending(keys) && ReferencesFree(b.movements, sale, keys)
    && forall i :: 0 <= i < |keys| ==> Demand(items, keys[i]) > 0
  }

  function Taken(stock: map<Uuid, int>, items: seq<Item>, keys: seq<Uuid>): map<Uuid, int> {
    map p | p in stock :: if p in keys then stock[p] - Demand(items, p) else stock[p]
  }

  /** The first posting of the loop. */
  lemma FirstKey(b: Book, sale: Uuid, items: seq<Item>, keys: seq<Uuid>)
    requires keys != [] && Ready(b, sale, items, keys)
    ensures var r := Post(b, keys[0], MovementKind.SALE, Demand(items, keys[0]), SALE_REFERENCE, sale);
      && (r.Ok? <==> Covered(b, items, keys[..1]))
      && (r.Ok? ==> Ready(r.value, sale, items, keys[1..])
                    && r.value.stock == b.stock[keys[0] := b.stock[keys[0]] - Demand(items, keys[0])])
      && (r.Err? ==> r.error == if keys[0] in b.stock then InsufficientStock else StockNotFound)
  {
    OnePosting(b, sale, keys[0], Demand(items, keys[0]));
    var r := Post(b, keys[0], MovementKind.SALE, Demand(items, keys[0]), SALE_REFERENCE, sale);
    if r.Ok? {
      ReferencesStayFree(b, sale, keys, r.value.movements[|b.movements|]);
    }
  }

  lemma TakenStep(stock: map<Uuid, int>, items: seq<Item>, keys: seq<Uuid>)
    requires keys != [] && Ascending(keys) && keys[0] in stock
    ensures Taken(stock[keys[0] := stock[keys[0]] - Demand(items, keys[0])], items, keys[1..])
         == Taken(stock, items, keys)
  {
    AscendingTail(keys);
    assert forall p :: p in keys <==> p == keys[0] || p in keys[1..];
  }

  /** Applying the demand succeeds exactly when every product's stock covers it; then
      the stock falls by the demand, product by product, and nothing else changes. */
  lemma {:induction false} ApplyAllIff(b: Book, sale: Uuid, items: seq<Item>, keys: seq<Uuid>)
    requires Ready(b, sale, items, keys)
    ensures ApplyAll(b, sale, items, keys).Ok? <==> Covered(b, items, keys)
    ensures ApplyAll(b, sale, items, keys).Ok? ==>
      ApplyAll(b, sale, items, keys).value.stock == Taken(b.stock, items, keys)
    decreases |keys|
  {
    if keys != [] {
      FirstKey(b, sale, items, keys);
      if Covered(b, items, keys) { CoveredPrefix(b, items, keys, 1); }
      var r := Post(b, keys[0], MovementKind.SALE, Demand(items, keys[0]), SALE_REFERENCE, sale);
      if r.Ok? {
        assert keys[0] == keys[..1][0];
        ApplyAllIff(r.value, sale, items, keys[1..]);
        CoveredTail(b, r.value, items, keys);
        TakenStep(b.stock, items, keys);
      }
    }
  }

  lemma CoveredPrefix(b: Book, items: seq<Item>, keys: seq<Uuid>, n: nat)
    requires n <= |keys| && Covered(b, items, keys)
    ensures Covered(b, items, keys[..n])
  {
  }

  /** The first product, in key order, whose stock is missing or short decides the error. */
  lemma {:induction false} FirstUncoveredDecides(b: Book, sale: Uuid, items: seq<Item>, keys: seq<Uuid>, i: nat)
    requires Ready(b, sale, items, keys) && i < |keys|
    requires Covered(b, items, keys[..i]) && !Covered(b, items, keys[..i + 1])
    ensures ApplyAll(b, sale, items, keys)
         == Err(if keys[i] in b.stock then InsufficientInventory else InventoryNotFound)
    decreases i
  {
    FirstKey(b, sale, items, keys);
    if i > 0 {
      var r := Post(b, keys[0], MovementKind.SALE, Demand(items, keys[0]), SALE_REFERENCE, sale);
      assert keys[..i][0] == keys[..i + 1][0] == keys[0];
      assert keys[..i][..1] == keys[..1];
      CoveredPrefix(b, items, keys[..i], 1);
      assert keys[..i][1..] == keys[1..][..i - 1] && keys[..i + 1][1..] == keys[1..][..i];
      CoveredTail(b, r.value, items, keys[..i]);
      CoveredTail(b, r.value, items, keys[..i + 1]);
      FirstUncoveredDecides(r.value, sale, items, keys[1..], i - 1);
    }
  }

  /** The postings keep the books, belong to this sale only, and are exactly one per
      product for its demand. */
  lemma {:induction false} ApplyAllPosts(b: Book, sale: Uuid, items: seq<Item>, keys: seq<Uuid>)
    requires Balanced(b) && ApplyAll(b, sale, items, keys).Ok?
    ensures var after := ApplyAll(b, sale, items, keys).value;
      Balanced(after) && SaleMoves(after.movements, sale) == SaleMoves(b.movements, sale) + Demands(items, keys)
    ensures forall other: Uuid :: other != sale ==>
      SaleMoves(ApplyAll(b, sale, items, keys).value.movements, other) == SaleMoves(b.movements, other)
    decreases |keys|
  {
    if keys != [] {
      var p, qty := keys[0], Demand(items, keys[0]);
      var next := Post(b, p, MovementKind.SALE, qty, SALE_REFERENCE, sale).value;
      PostKeepsBalance(b, p, MovementKind.SALE, qty, SALE_REFERENCE, sale);
      var m := next.movements[|b.movements|];
      SaleMovesAppend(b.movements, m, sale);
      ApplyAllPosts(next, sale, items, keys[1..]);
      assert Demands(items, keys) == [(p, qty)] + Demands(items, keys[1..]);
      forall other: Uuid | other != sale
        ensures SaleMoves(next.movements, other) == SaleMoves(b.movements, other)
      {
        SaleMovesAppend(b.movements, m, other);
      }
    } else {
      assert Demands(items, keys) == [];
    }
  }
}
