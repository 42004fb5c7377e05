/**
 Payment methods and stores of one organization: whether any command takes the last
 operational method from an active store, the last active method or the last active store
 from the organization. Every command that could runs under the organization's row lock,
 which also holds back the insertion of new stores, so each is one step here. Renaming a
 store takes no such lock: a deactivation reads the active stores page by page, and each
 page may see them in another order.
 */
module PaymentMethods {
  import opened Results
  import opened Identifiers
  import opened Sets

  datatype StoreStatus = ACTIVE | INACTIVE | ARCHIVED

  /** `methods` says whether each method is active in the organization, `bindings` whether
      it is in a store, keyed by (store, method). */
  datatype Db = Db(methods: map<Uuid, bool>, stores: map<Uuid, StoreStatus>, bindings: map<(Uuid, Uuid), bool>,
                   openSales: set<Uuid>)

  datatype StoreError =
    | StoreNotFound | StoreArchived | StoreHasOpenSales | LastActiveStore
    | MethodNotFound | MethodInactive | BindingNotFound | LastOperationalMethod | LastActiveMethod
    | ValidationError | DatabaseError

  type Outcome = Result<Db, StoreError>

  predicate BindingActive(db: Db, store: Uuid, m: Uuid) {
    (store, m) in db.bindings && db.bindings[(store, m)]
  }

  function ActiveMethods(db: Db): set<Uuid> {
    set m | m in db.methods && db.methods[m]
  }

  function ActiveStores(db: Db): set<Uuid> {
    set s | s in db.stores && db.stores[s] == ACTIVE
  }

  /** Methods active both in the organization and in the store. */
  function Operational(db: Db, store: Uuid): set<Uuid> {
    set m | m in db.methods && db.methods[m] && BindingActive(db, store, m)
  }

  // ----- deactivating a method in the organization -----

  /** The store would be left with nothing, by the code's test: it uses the method and has
      at most one operational method. */
  predicate Depends(db: Db, store: Uuid, m: Uuid) {
    BindingActive(db, store, m) && |Operational(db, store)| <= 1
  }

  const PAGE_SIZE: nat := 100
  const MAX_INT32: int := 2147483647

  /** The first number of active stores the offset of the page loop cannot get past. */
  const STORE_LIMIT: nat := 2147483700

  /** One page of a listing. */
  function Page(listing: seq<Uuid>, offset: nat): (rows: seq<Uuid>)
    ensures |rows| <= PAGE_SIZE
  {
    if offset >= |listing| then []
    else listing[offset..if offset + PAGE_SIZE <= |listing| then offset + PAGE_SIZE else |listing|]
  }

  /** The stores the loop looks at from page `k` on, with the listing as each page's query
      sees it; None when the offset leaves 32 bits before a short page ends the loop. */
  function Visited(listings: nat -> seq<Uuid>, k: nat): Option<seq<Uuid>>
    decreases MAX_INT32 + PAGE_SIZE - k * PAGE_SIZE
  {
    if k * PAGE_SIZE > MAX_INT32 then None
    else
      var rows := Page(listings(k), k * PAGE_SIZE);
      if |rows| < PAGE_SIZE then Some(rows)
      else
        match Visited(listings, k + 1)
        case None => None
        case Some(rest) => Some(rows + rest)
  }

  /** The check: a store on a page that depends on the method refuses; a short page ends it. */
  function PagedCheck(db: Db, m: Uuid, listings: nat -> seq<Uuid>, k: nat): Option<StoreError>
    decreases MAX_INT32 + PAGE_SIZE - k * PAGE_SIZE
  {
    if k * PAGE_SIZE > MAX_INT32 then Some(DatabaseError)
    else
      var rows := Page(listings(k), k * PAGE_SIZE);
      if exists i :: 0 <= i < |rows| && Depends(db, rows[i], m) then Some(LastOperationalMethod)
      else if |rows| < PAGE_SIZE then None
      else PagedCheck(db, m, listings, k + 1)
  }

  /** `listings(k)` is the list of active stores, by name, as the query of page `k` sees it. */
  function SetMethodStatus(db: Db, m: Uuid, active: bool, listings: nat -> seq<Uuid>): Outcome {
    if m !in db.methods then Err(MethodNotFound)
    else if db.methods[m] == active then Ok(db)
    else if active then Ok(db.(methods := db.methods[m := true]))
    else
      match PagedCheck(db, m, listings, 0)
      case Some(e) => Err(e)
      case None =>
        if |ActiveMethods(db)| <= 1 then Err(LastActiveMethod) else Ok(db.(methods := db.methods[m := false]))
  }

  // ----- the methods of one store -----

  predicate NoDuplicates(desired: seq<(Uuid, bool)>) {
    forall i, j :: 0 <= i < j < |desired| ==> desired[i].0 != desired[j].0
  }

  predicate Lists(desired: seq<(Uuid, bool)>, m: Uuid) {
    exists i :: 0 <= i < |desired| && desired[i].0 == m
  }

  /** The first listed method that is unknown, or wanted although inactive, decides. */
  function DesiredError(methods: map<Uuid, bool>, desired: seq<(Uuid, bool)>): Option<StoreError> {
    if desired == [] then None
    else if desired[0].0 !in methods then Some(MethodNotFound)
    else if desired[0].1 && !methods[desired[0].0] then Some(MethodInactive)
    else DesiredError(methods, desired[1..])
  }

  /** Every binding of the store that is not listed is switched off, the listed ones are set. */
  function Replaced(bindings: map<(Uuid, Uuid), bool>, store: Uuid, desired: seq<(Uuid, bool)>)
      : map<(Uuid, Uuid), bool>
  {
    Upserted(SwitchedOff(bindings, store, desired), store, desired)
  }

  function SwitchedOff(bindings: map<(Uuid, Uuid), bool>, store: Uuid, desired: seq<(Uuid, bool)>)
      : map<(Uuid, Uuid), bool>
  {
    map k | k in bindings :: if k.0 == store && !Lists(desired, k.1) then false else bindings[k]
  }

  function Upserted(bindings: map<(Uuid, Uuid), bool>, store: Uuid, desired: seq<(Uuid, bool)>)
      : map<(Uuid, Uuid), bool>
  {
    if desired == [] then bindings
    else
      var last := desired[|desired| - 1];
      Upserted(bindings, store, desired[..|desired| - 1])[(store, last.0) := last.1]
  }

  predicate WantsOne(desired: seq<(Uuid, bool)>) {
    exists i :: 0 <= i < |desired| && desired[i].1
  }

  function ReplaceStoreMethods(db: Db, store: Uuid, desired: seq<(Uuid, bool)>): Outcome {
    if desired == [] || !NoDuplicates(desired) then Err(ValidationError)
    else if !WantsOne(desired) then Err(LastOperationalMethod)
    else if store !in db.stores then Err(StoreNotFound)
    else
      match DesiredError(db.methods, desired)
      case Some(e) => Err(e)
      case None => Ok(db.(bindings := Replaced(db.bindings, store, desired)))
  }

  /** `sorted` says whether a new sort order is part of the request. */
  function UpdateStoreMethod(db: Db, store: Uuid, m: Uuid, wanted: Option<bool>, sorted: bool): Outcome {
    if wanted.None? && !sorted then Err(ValidationError)
    else if store !in db.stores then Err(StoreNotFound)
    else if m !in db.methods then Err(MethodNotFound)
    else if (store, m) !in db.bindings && wanted.None? then Err(BindingNotFound)
    else
      var current := BindingActive(db, store, m);
      var active := if wanted.Some? then wanted.value else current;
      if active && !db.methods[m] then Err(MethodInactive)
      else if current && !active && |Operational(db, store)| <= 1 then Err(LastOperationalMethod)
      else Ok(db.(bindings := db.bindings[(store, m) := active]))
  }

  // ----- stores -----

  function SetStoreStatus(db: Db, store: Uuid, target: StoreStatus): Outcome {
    if store !in db.stores then Err(StoreNotFound)
    else if db.stores[store] == target then Ok(db)
    else if db.stores[store] == ARCHIVED then Err(StoreArchived)
    else if db.stores[store] == ACTIVE && store in db.openSales then Err(StoreHasOpenSales)
    else if db.stores[store] == ACTIVE && |ActiveStores(db)| <= 1 then Err(LastActiveStore)
    else Ok(db.(stores := db.stores[store := target]))
  }

  /** A new store is active and, unless the request says otherwise, gets every active method. */
  function CreateStore(db: Db, store: Uuid, copy: bool): Outcome {
    if store in db.stores then Err(DatabaseError)
    else
      var copied := map m | m in ActiveMethods(db) :: (store, m) := true;
      Ok(db.(stores := db.stores[store := ACTIVE], bindings := if copy then db.bindings + copied else db.bindings))
  }

  datatype Op =
    | CreateMethod(m: Uuid, active: bool)
    | SetMethod(m: Uuid, active: bool, listings: nat -> seq<Uuid>)
    | Replace(store: Uuid, desired: seq<(Uuid, bool)>)
    | Update(store: Uuid, m: Uuid, wanted: Option<bool>, sorted: bool)
    | SetStore(store: Uuid, target: StoreStatus)
    | AddStore(store: Uuid, copy: bool)
    | OpenSale(store: Uuid)
    | CloseSales(store: Uuid)

  function Perform(db: Db, op: Op): Outcome {
    match op
    case CreateMethod(m, active) =>
      if m in db.methods then Err(DatabaseError) else Ok(db.(methods := db.methods[m := active]))
    case SetMethod(m, active, listings) => SetMethodStatus(db, m, active, listings)
    case Replace(store, desired) => ReplaceStoreMethods(db, store, desired)
    case Update(store, m, wanted, sorted) => UpdateStoreMethod(db, store, m, wanted, sorted)
    case SetStore(store, target) => SetStoreStatus(db, store, target)
    case AddStore(store, copy) => CreateStore(db, store, copy)
    case OpenSale(store) =>
      if store in db.stores then Ok(db.(openSales := db.openSales + {store})) else Err(StoreNotFound)
    case CloseSales(store) => Ok(db.(openSales := db.openSales - {store}))
  }

  function Step(db: Db, op: Op): Db {
    var r := Perform(db, op);
    if r.Ok? then r.value else db
  }

  function Exec(db: Db, ops: seq<Op>): Db {
    if |ops| == 0 then db else Step(Exec(db, ops[..|ops| - 1]), ops[|ops| - 1])
  }

  // ----- what no step takes away -----

  /** Bindings point to rows that exist. */
  predicate Inv(db: Db) {
    forall k :: k in db.bindings ==> k.0 in db.stores && k.1 in db.methods
  }

  lemma {:induction false} UpsertedAt(bindings: map<(Uuid, Uuid), bool>, store: Uuid, desired: seq<(Uuid, bool)>,
                                      k: (Uuid, Uuid))
    ensures k in Upserted(bindings, store, desired) <==> k in bindings || (k.0 == store && Lists(desired, k.1))
    ensures k in bindings && !(k.0 == store && Lists(desired, k.1)) ==>
      Upserted(bindings, store, desired)[k] == bindings[k]
  {
    if desired != [] {
      var init, last := desired[..|desired| - 1], desired[|desired| - 1];
      UpsertedAt(bindings, store, init, k);
      ListsAppend(init, last, k.1);
      assert desired == init + [last];
    }
  }

  lemma ListsAppend(init: seq<(Uuid, bool)>, last: (Uuid, bool), m: Uuid)
    ensures Lists(init + [last], m) <==> Lists(init, m) || last.0 == m
  {
    var all := init + [last];
    assert all[|init|] == last;
    if Lists(init, m) {
      var i :| 0 <= i < |init| && init[i].0 == m;
      assert all[i].0 == m;
    }
  }

  /** Each listed method gets the wanted value. */
  lemma {:induction false} UpsertedListed(bindings: map<(Uuid, Uuid), bool>, store: Uuid, desired: seq<(Uuid, bool)>,
                                          i: nat)
    requires NoDuplicates(desired) && i < |desired|
    ensures (store, desired[i].0) in Upserted(bindings, store, desired)
    ensures Upserted(bindings, store, desired)[(store, desired[i].0)] == desired[i].1
  {
    if i < |desired| - 1 {
      UpsertedListed(bindings, store, desired[..|desired| - 1], i);
    }
  }

  lemma {:induction false} DesiredAreKnown(methods: map<Uuid, bool>, desired: seq<(Uuid, bool)>)
    requires DesiredError(methods, desired).None?
    ensures forall i :: 0 <= i < |desired| ==> desired[i].0 in methods && (desired[i].1 ==> methods[desired[i].0])
  {
    if desired != [] {
      DesiredAreKnown(methods, desired[1..]);
    }
  }

  /** A replacement leaves the store exactly the listed active methods. */
  lemma ReplacementEffect(db: Db, store: Uuid, desired: seq<(Uuid, bool)>)
    requires ReplaceStoreMethods(db, store, desired).Ok?
    ensures var after := ReplaceStoreMethods(db, store, desired).value;
      && (forall m :: m in Operational(after, store) <==> (m, true) in desired)
      && Operational(after, store) != {}
      && (forall s :: s != store ==> Operational(after, s) == Operational(db, s))
      && (Inv(db) ==> Inv(after))
  {
    var after := ReplaceStoreMethods(db, store, desired).value;
    var off := SwitchedOff(db.bindings, store, desired);
    DesiredAreKnown(db.methods, desired);
    forall m ensures m in Operational(after, store) <==> (m, true) in desired {
      UpsertedAt(off, store, desired, (store, m));
      if Lists(desired, m) {
        var i :| 0 <= i < |desired| && desired[i].0 == m;
        UpsertedListed(off, store, desired, i);
        assert desired[i] in desired;
      }
    }
    var i :| 0 <= i < |desired| && desired[i].1;
    assert desired[i] == (desired[i].0, true) && desired[i] in desired;
    assert desired[i].0 in Operational(after, store);
    forall k ensures k in after.bindings <==> k in db.bindings || (k.0 == store && Lists(desired, k.1)) {
      UpsertedAt(off, store, desired, k);
    }
    forall k | k in db.bindings && k.0 != store ensures after.bindings[k] == db.bindings[k] {
      UpsertedAt(off, store, desired, k);
    }
    forall s | s != store ensures Operational(after, s) == Operational(db, s) {
      assert forall m :: BindingActive(after, s, m) <==> BindingActive(db, s, m);
    }
  }

  lemma UpdateLeavesOne(db: Db, s: Uuid, m: Uuid, wanted: Option<bool>, sorted: bool, store: Uuid)
    requires UpdateStoreMethod(db, s, m, wanted, sorted).Ok? && Operational(db, store) != {}
    ensures Operational(UpdateStoreMethod(db, s, m, wanted, sorted).value, store) != {}
  {
    var after := UpdateStoreMethod(db, s, m, wanted, sorted).value;
    var keep :| keep in Operational(db, store);
    if s == store && BindingActive(db, store, m) && !BindingActive(after, store, m) {
      keep := OtherElement(Operational(db, store), m);
    }
    assert keep in Operational(after, store);
  }

  /** No step takes the last active method or store from the organization; an archived
      store stays archived. */
  lemma OrganizationKeepsOne(db: Db, op: Op)
    ensures ActiveMethods(db) != {} ==> ActiveMethods(Step(db, op)) != {}
    ensures ActiveStores(db) != {} ==> ActiveStores(Step(db, op)) != {}
    ensures forall s :: s in db.stores ==>
      s in Step(db, op).stores && (db.stores[s] == ARCHIVED ==> Step(db, op).stores[s] == ARCHIVED)
  {
    var after := Step(db, op);
    if ActiveMethods(db) != {} {
      var keep :| keep in ActiveMethods(db);
      if op.SetMethod? && after != db && !op.active {
        keep := OtherElement(ActiveMethods(db), op.m);
      }
      assert keep in ActiveMethods(after);
    }
    if ActiveStores(db) != {} {
      var keep :| keep in ActiveStores(db);
      if op.SetStore? && after != db && db.stores[op.store] == ACTIVE {
        keep := OtherElement(ActiveStores(db), op.store);
      }
      assert keep in ActiveStores(after);
    }
  }

  lemma StepKeepsInv(db: Db, op: Op)
    requires Inv(db)
    ensures Inv(Step(db, op))
  {
    match op
    case Replace(store, desired) =>
      if Perform(db, op).Ok? { ReplacementEffect(db, store, desired); }
    case _ =>
  }

  // ----- what the page loop sees -----

  const MAX_PAGES: nat := 21474837

  /** The same listing for every page from `first` on. */
  predicate Stable(listings: nat -> seq<Uuid>, all: seq<Uuid>, first: nat) {
    forall k :: first <= k < MAX_PAGES ==> listings(k) == all
  }

  /** With a stable listing the loop visits every store exactly once, in order, and stops;
      only beyond two thousand million stores does it end in an error instead. */
  lemma {:induction false} VisitsEachOnce(listings: nat -> seq<Uuid>, all: seq<Uuid>, k: nat)
    requires Stable(listings, all, k) && k * PAGE_SIZE <= |all| && k <= MAX_PAGES
    ensures Visited(listings, k) == if |all| < STORE_LIMIT then Some(all[k * PAGE_SIZE..]) else None
    decreases MAX_PAGES - k
  {
    if k < MAX_PAGES {
      assert listings(k) == all;
      var offset := k * PAGE_SIZE;
      if offset + PAGE_SIZE <= |all| {
        VisitsEachOnce(listings, all, k + 1);
        PageThenRest(all, offset);
      } else {
        assert Page(all, offset) == all[offset..];
      }
    }
  }

  lemma PageThenRest(all: seq<Uuid>, offset: nat)
    requires offset + PAGE_SIZE <= |all|
    ensures |Page(all, offset)| == PAGE_SIZE && Page(all, offset) + all[offset + PAGE_SIZE..] == all[offset..]
  {
  }

  /** The listing is ordered by name, and renaming a store does not take the organization's
      lock: every page may see the same stores in another order. */
  ghost predicate SameStores(listings: nat -> seq<Uuid>, all: seq<Uuid>) {
    forall k: nat :: multiset(listings(k)) == multiset(all)
  }

  predicate VisitsExactly(listings: nat -> seq<Uuid>, all: seq<Uuid>) {
    Visited(listings, 0).Some? && multiset(Visited(listings, 0).value) == multiset(all)
  }

  ghost predicate ExactWhateverIsRenamed(all: seq<Uuid>) {
    forall listings: nat -> seq<Uuid> :: SameStores(listings, all) ==> VisitsExactly(listings, all)
  }

  lemma OnePageIsExact(listings: nat -> seq<Uuid>, all: seq<Uuid>)
    requires |all| <= PAGE_SIZE && SameStores(listings, all)
    ensures VisitsExactly(listings, all)
  {
    var first := listings(0);
    assert multiset(first) == multiset(all);
    assert |first| == |multiset(first)| == |all|;
    assert Page(first, 0) == first;
    if |first| == PAGE_SIZE {
      assert multiset(listings(1)) == multiset(all);
      assert |listings(1)| == |multiset(listings(1))|;
      assert Page(listings(1), PAGE_SIZE) == [];
      assert Visited(listings, 1) == Some([]);
      assert first + [] == first;
    }
  }

  /** The last store of the listing renamed to the front. */
  function Rotated(all: seq<Uuid>): seq<Uuid>
    requires all != []
  {
    [all[|all| - 1]] + all[..|all| - 1]
  }

  /** A rename after the first page: the store that comes to the front is passed over. */
  lemma RenameHidesAStore(listings: nat -> seq<Uuid>, all: seq<Uuid>)
    requires PAGE_SIZE < |all| < STORE_LIMIT && forall i, j :: 0 <= i < j < |all| ==> all[i] != all[j]
    requires listings(0) == all && Stable(listings, Rotated(all), 1)
    ensures Visited(listings, 0) == Some(all[..PAGE_SIZE] + Rotated(all)[PAGE_SIZE..])
    ensures all[|all| - 1] !in Visited(listings, 0).value
  {
    VisitsEachOnce(listings, Rotated(all), 1);
    assert Page(all, 0) == all[..PAGE_SIZE];
  }

  lemma RotatedSameStores(all: seq<Uuid>)
    requires all != []
    ensures multiset(Rotated(all)) == multiset(all)
  {
    var last := |all| - 1;
    assert all == all[..last] + [all[last]];
  }

  /** All stores listed in one order first and rotated afterwards. */
  function RenamedAfterFirst(all: seq<Uuid>): nat -> seq<Uuid>
    requires all != []
  {
    k => if k == 0 then all else Rotated(all)
  }

  lemma RenameDefeatsTheCheck(all: seq<Uuid>)
    requires PAGE_SIZE < |all| < STORE_LIMIT && forall i, j :: 0 <= i < j < |all| ==> all[i] != all[j]
    ensures SameStores(RenamedAfterFirst(all), all) && !VisitsExactly(RenamedAfterFirst(all), all)
  {
    var listings := RenamedAfterFirst(all);
    RotatedSameStores(all);
    forall k: nat ensures multiset(listings(k)) == multiset(all) {
    }
    RenameHidesAStore(listings, all);
    assert all[|all| - 1] in multiset(all);
  }

  /** The check sees every active store exactly once, whatever is renamed between its
      pages, exactly when the active stores fit on one page. */
  lemma ExactWhateverIsRenamedIff(all: seq<Uuid>)
    requires |all| < STORE_LIMIT && forall i, j :: 0 <= i < j < |all| ==> all[i] != all[j]
    ensures ExactWhateverIsRenamed(all) <==> |all| <= PAGE_SIZE
  {
    if |all| <= PAGE_SIZE {
      forall listings: nat -> seq<Uuid> | SameStores(listings, all) ensures VisitsExactly(listings, all) {
        OnePageIsExact(listings, all);
      }
    } else {
      RenameDefeatsTheCheck(all);
    }
  }

  // ----- what a deactivation leaves -----

  /** Every page lists exactly the active stores, in whatever order the names then have. */
  ghost predicate ListsActive(db: Db, listings: nat -> seq<Uuid>) {
    forall k: nat :: multiset(listings(k)) == multiset(ActiveStores(db))
  }

  lemma PagedCheckIff(db: Db, m: Uuid, listings: nat -> seq<Uuid>, k: nat)
    ensures PagedCheck(db, m, listings, k).None?
       <==> Visited(listings, k).Some? && forall s :: s in Visited(listings, k).value ==> !Depends(db, s, m)
    decreases MAX_INT32 + PAGE_SIZE - k * PAGE_SIZE
  {
    if k * PAGE_SIZE <= MAX_INT32 {
      var rows := Page(listings(k), k * PAGE_SIZE);
      PagedCheckIff(db, m, listings, k + 1);
      assert forall i :: 0 <= i < |rows| ==> rows[i] in rows;
    }
  }

  /** With more stores than the offset can pass, every page is full and the loop fails. */
  lemma {:induction false} TooManyToVisit(listings: nat -> seq<Uuid>, k: nat)
    requires k <= MAX_PAGES && forall j: nat :: |listings(j)| >= STORE_LIMIT
    ensures Visited(listings, k).None?
    decreases MAX_PAGES - k
  {
    if k < MAX_PAGES {
      assert |listings(k)| >= STORE_LIMIT;
      PageThenRest(listings(k), k * PAGE_SIZE);
      TooManyToVisit(listings, k + 1);
    }
  }

  /** The active stores are few enough for one page, or too many for the loop to end. */
  predicate FitsOnePage(stores: set<Uuid>) {
    |stores| <= PAGE_SIZE || |stores| >= STORE_LIMIT
  }

  lemma CheckSeesAll(db: Db, listings: nat -> seq<Uuid>, s: Uuid)
    requires ListsActive(db, listings) && s in ActiveStores(db) && Visited(listings, 0).Some?
    requires FitsOnePage(ActiveStores(db)) || Stable(listings, listings(0), 0)
    ensures s in Visited(listings, 0).value
  {
    var all := listings(0);
    assert multiset(all) == multiset(ActiveStores(db));
    assert |all| == |multiset(all)| == |ActiveStores(db)|;
    assert s in multiset(ActiveStores(db)) && s in multiset(all);
    if |all| <= PAGE_SIZE {
      OnePageIsExact(listings, all);
      assert s in multiset(Visited(listings, 0).value);
    } else if |all| >= STORE_LIMIT {
      forall j: nat ensures |listings(j)| >= STORE_LIMIT {
        assert |listings(j)| == |multiset(listings(j))|;
      }
      TooManyToVisit(listings, 0);
    } else {
      VisitsEachOnce(listings, all, 0);
      assert all[0..] == all;
    }
  }

  /** Deactivating a method that passes the check leaves each active store a method. */
  lemma DeactivationLeavesOne(db: Db, m: Uuid, listings: nat -> seq<Uuid>, store: Uuid)
    requires SetMethodStatus(db, m, false, listings).Ok? && store in ActiveStores(db) && Operational(db, store) != {}
    requires ListsActive(db, listings) && (FitsOnePage(ActiveStores(db)) || Stable(listings, listings(0), 0))
    ensures Operational(SetMethodStatus(db, m, false, listings).value, store) != {}
  {
    var after := SetMethodStatus(db, m, false, listings).value;
    var keep :| keep in Operational(db, store);
    if after != db && BindingActive(db, store, m) {
      PagedCheckIff(db, m, listings, 0);
      CheckSeesAll(db, listings, store);
      assert !Depends(db, store, m);
      keep := OtherElement(Operational(db, store), m);
    }
    assert keep in Operational(after, store);
  }

  /** Nothing but the store renamed last uses the method to be deactivated. */
  function LosingDb(all: seq<Uuid>): Db
    requires all != []
  {
    Db(map[0 := true, 1 := true], map s | s in all :: ACTIVE, map[(all[|all| - 1], 0) := true], {})
  }

  lemma LosingDbFacts(all: seq<Uuid>)
    requires all != []
    ensures var db, hidden := LosingDb(all), all[|all| - 1];
      && Inv(db) && hidden in ActiveStores(db) && Operational(db, hidden) == {0} && |ActiveMethods(db)| == 2
      && (forall s :: s != hidden ==> !Depends(db, s, 0))
      && Operational(db.(methods := db.methods[0 := false]), hidden) == {}
  {
    var db, hidden := LosingDb(all), all[|all| - 1];
    assert BindingActive(db, hidden, 0) && !BindingActive(db, hidden, 1);
    assert ActiveMethods(db) == {0, 1};
  }

  /** With more than one page of active stores a rename during the check lets a deactivation
      take the last operational method of an active store. */
  lemma RenameEmptiesAStore(all: seq<Uuid>)
    requires PAGE_SIZE < |all| < STORE_LIMIT && forall i, j :: 0 <= i < j < |all| ==> all[i] != all[j]
    ensures var db, listings, hidden := LosingDb(all), RenamedAfterFirst(all), all[|all| - 1];
      var after := Exec(db, [SetMethod(0, false, listings)]);
      && Inv(db) && SameStores(listings, all) && hidden in ActiveStores(db) && hidden in ActiveStores(after)
      && SetMethodStatus(db, 0, false, listings) == Ok(after)
      && Operational(db, hidden) == {0} && Operational(after, hidden) == {}
  {
    var db, listings := LosingDb(all), RenamedAfterFirst(all);
    LosingDbFacts(all);
    RenameDefeatsTheCheck(all);
    RenameHidesAStore(listings, all);
    PagedCheckIff(db, 0, listings, 0);
    var r := SetMethodStatus(db, 0, false, listings);
    assert r == Ok(db.(methods := db.methods[0 := false]));
    OneStep(db, SetMethod(0, false, listings));
  }

  lemma OneStep(db: Db, op: Op)
    ensures Exec(db, [op]) == Step(db, op)
  {
    var ops := [op];
    assert |ops[..0]| == 0 && Exec(db, ops[..0]) == db;
  }

  ghost predicate LeavesEachStoreOne(db: Db, m: Uuid, listings: nat -> seq<Uuid>) {
    SetMethodStatus(db, m, false, listings).Ok? ==>
      forall s :: s in ActiveStores(db) && Operational(db, s) != {} ==>
        Operational(SetMethodStatus(db, m, false, listings).value, s) != {}
  }

  /** No deactivation in an organization with these active stores can take the last
      operational method of one of them, whatever is renamed meanwhile. */
  ghost predicate DeactivationSafe(stores: set<Uuid>) {
    forall db, m, listings: nat -> seq<Uuid> ::
      Inv(db) && ActiveStores(db) == stores && ListsActive(db, listings) ==> LeavesEachStoreOne(db, m, listings)
  }

  /** Deactivations are safe against renames exactly when the active stores fit on one page
      (or are so many that the loop can only fail). */
  lemma DeactivationSafeIff(stores: set<Uuid>)
    ensures DeactivationSafe(stores) <==> FitsOnePage(stores)
  {
    if FitsOnePage(stores) {
      forall db, m, listings: nat -> seq<Uuid> | Inv(db) && ActiveStores(db) == stores && ListsActive(db, listings)
        ensures LeavesEachStoreOne(db, m, listings)
      {
        if SetMethodStatus(db, m, false, listings).Ok? {
          forall s | s in ActiveStores(db) && Operational(db, s) != {}
            ensures Operational(SetMethodStatus(db, m, false, listings).value, s) != {}
          {
            DeactivationLeavesOne(db, m, listings, s);
          }
        }
      }
    } else {
      var all := Enumerate(stores);
      UnsafeBeyondOnePage(stores, all);
    }
  }

  lemma UnsafeBeyondOnePage(stores: set<Uuid>, all: seq<Uuid>)
    requires PAGE_SIZE < |all| < STORE_LIMIT && forall i, j :: 0 <= i < j < |all| ==> all[i] != all[j]
    requires multiset(all) == multiset(stores) && forall s :: s in all <==> s in stores
    ensures !DeactivationSafe(stores)
  {
    var db, listings, hidden := LosingDb(all), RenamedAfterFirst(all), all[|all| - 1];
    RenameEmptiesAStore(all);
    assert ActiveStores(db) == stores;
    assert ListsActive(db, listings) by {
      forall k: nat ensures multiset(listings(k)) == multiset(ActiveStores(db)) {
        assert multiset(listings(k)) == multiset(all);
      }
    }
    assert !LeavesEachStoreOne(db, 0, listings);
  }

  // ----- what no step takes away from a store -----

  /** A deactivation lists the active stores, and they fit on one page or nothing is renamed
      while it reads. */
  ghost predicate SoundCheck(db: Db, op: Op) {
    op.SetMethod? && !op.active ==>
      ListsActive(db, op.listings) && (FitsOnePage(ActiveStores(db)) || Stable(op.listings, op.listings(0), 0))
  }

  /** No step whose check is sound takes the last operational method from an active store. */
  lemma StoreKeepsAMethod(db: Db, op: Op, store: Uuid)
    requires Inv(db) && SoundCheck(db, op) && store in ActiveStores(db) && Operational(db, store) != {}
    ensures store in Step(db, op).stores && Operational(Step(db, op), store) != {}
  {
    var after := Step(db, op);
    var keep :| keep in Operational(db, store);
    if Perform(db, op).Ok? {
      match op
      case SetMethod(m, active, listings) =>
        if active { assert keep in Operational(after, store); } else { DeactivationLeavesOne(db, m, listings, store); }
      case Replace(s, desired) => ReplacementEffect(db, s, desired);
      case Update(s, m, wanted, sorted) => UpdateLeavesOne(db, s, m, wanted, sorted, store);
      case _ => assert keep in Operational(after, store);
    }
  }

  predicate ActiveThroughout(db: Db, ops: seq<Op>, store: Uuid)
    decreases |ops|
  {
    store in ActiveStores(Exec(db, ops)) && (|ops| == 0 || ActiveThroughout(db, ops[..|ops| - 1], store))
  }

  ghost predicate SoundRun(db: Db, ops: seq<Op>)
    decreases |ops|
  {
    |ops| == 0 || (SoundRun(db, ops[..|ops| - 1]) && SoundCheck(Exec(db, ops[..|ops| - 1]), ops[|ops| - 1]))
  }

  /** Over every run the organization keeps an active method and an active store; over every
      run with sound checks a store that stays active keeps an operational method. */
  lemma {:induction false} NothingLastIsLost(db: Db, ops: seq<Op>)
    requires Inv(db) && ActiveMethods(db) != {} && ActiveStores(db) != {}
    ensures var end := Exec(db, ops); Inv(end) && ActiveMethods(end) != {} && ActiveStores(end) != {}
    ensures SoundRun(db, ops) ==>
      forall store :: ActiveThroughout(db, ops, store) && Operational(db, store) != {} ==>
        Operational(Exec(db, ops), store) != {}
  {
    if |ops| > 0 {
      var before := Exec(db, ops[..|ops| - 1]);
      NothingLastIsLost(db, ops[..|ops| - 1]);
      OrganizationKeepsOne(before, ops[|ops| - 1]);
      StepKeepsInv(before, ops[|ops| - 1]);
      if SoundRun(db, ops) {
        forall store | ActiveThroughout(db, ops, store) && Operational(db, store) != {}
          ensures Operational(Exec(db, ops), store) != {}
        {
          StoreKeepsAMethod(before, ops[|ops| - 1], store);
        }
      }
    }
  }

  // ----- the service -----

  class Organization {
    var methods: map<Uuid, bool>
    var stores: map<Uuid, StoreStatus>
    var bindings: map<(Uuid, Uuid), bool>
    var openSales: set<Uuid>

    ghost function View(): Db
      reads this
    {
      Db(methods, stores, bindings, openSales)
    }

    constructor ()
      ensures View() == Db(map[], map[], map[], {})
    {
      methods, stores, bindings, openSales := map[], map[], map[], {};
    }

    /** The page loop: one query a page, until a short one. */
    method EnsureCanBeDeactivated(m: Uuid, listings: nat -> seq<Uuid>) returns (r: Option<StoreError>)
      ensures r == PagedCheck(View(), m, listings, 0)
    {
      var offset := 0;
      ghost var page: nat := 0;
      while true
        invariant offset == page * PAGE_SIZE && offset <= MAX_INT32 + PAGE_SIZE
        invariant PagedCheck(View(), m, listings, 0) == PagedCheck(View(), m, listings, page)
        decreases MAX_INT32 + PAGE_SIZE - offset
      {
        if offset > MAX_INT32 {
          return Some(DatabaseError);
        }
        var rows := Page(listings(offset / PAGE_SIZE), offset);
        for j := 0 to |rows|
          invariant forall i :: 0 <= i < j ==> !Depends(View(), rows[i], m)
        {
          var store := rows[j];
          if (store, m) in bindings && bindings[(store, m)] {
            var count := |Operational(Db(methods, stores, bindings, openSales), store)|;
            if count <= 1 {
              assert Depends(View(), rows[j], m);
              return Some(LastOperationalMethod);
            }
          }
        }
        if |rows| < PAGE_SIZE {
          return None;
        }
        offset := offset + PAGE_SIZE;
        page := page + 1;
      }
    }

    method SetMethodStatus(m: Uuid, active: bool, listings: nat -> seq<Uuid>) returns (r: Option<StoreError>)
      modifies this`methods
      ensures View() == Step(old(View()), SetMethod(m, active, listings))
      ensures r.None? <==> Perform(old(View()), SetMethod(m, active, listings)).Ok?
      ensures r.Some? ==> r.value == Perform(old(View()), SetMethod(m, active, listings)).error
    {
      if m !in methods {
        return Some(MethodNotFound);
      }
      if methods[m] == active {
        return None;
      }
      if !active {
        r := EnsureCanBeDeactivated(m, listings);
        if r.Some? {
          return r;
        }
        var activeMethods := set x | x in methods && methods[x];
        assert activeMethods == ActiveMethods(View());
        if |activeMethods| <= 1 {
          return Some(LastActiveMethod);
        }
      }
      methods := methods[m := active];
      return None;
    }

    /** The request's checks: duplicates by a set of ids already seen. */
    method CheckRequest(desired: seq<(Uuid, bool)>) returns (r: Option<StoreError>)
      ensures r == if desired == [] || !NoDuplicates(desired) then Some(ValidationError)
                   else if !WantsOne(desired) then Some(LastOperationalMethod) else None
    {
      if |desired| == 0 {
        return Some(ValidationError);
      }
      var seen: set<Uuid> := {};
      var requestedActive := false;
      for i := 0 to |desired|
        invariant seen == set k | 0 <= k < i :: desired[k].0
        invariant forall k, l :: 0 <= k < l < i ==> desired[k].0 != desired[l].0
        invariant requestedActive <==> exists k :: 0 <= k < i && desired[k].1
      {
        if desired[i].0 in seen {
          return Some(ValidationError);
        }
        seen := seen + {desired[i].0};
        requestedActive := requestedActive || desired[i].1;
      }
      return if requestedActive then None else Some(LastOperationalMethod);
    }

    method CheckDesired(desired: seq<(Uuid, bool)>) returns (r: Option<StoreError>)
      ensures r == DesiredError(methods, desired)
    {
      assert desired[0..] == desired;
      for i := 0 to |desired|
        invariant DesiredError(methods, desired) == DesiredError(methods, desired[i..])
      {
        assert desired[i..][1..] == desired[i + 1..];
        if desired[i].0 !in methods {
          return Some(MethodNotFound);
        }
        if desired[i].1 && !methods[desired[i].0] {
          return Some(MethodInactive);
        }
      }
      return None;
    }

    /** The first write loop: every existing binding that the request omits is switched off. */
    method SwitchOffOmitted(store: Uuid, desired: seq<(Uuid, bool)>)
      modifies this`bindings
      ensures bindings == SwitchedOff(old(bindings), store, desired)
    {
      ghost var before := bindings;
      var rest := set k | k in bindings && k.0 == store :: k.1;
      while rest != {}
        invariant bindings.Keys == before.Keys
        invariant forall x :: x in rest ==> (store, x) in before
        invariant forall k :: k in before ==>
          bindings[k] == if k.0 == store && k.1 !in rest && !Lists(desired, k.1) then false else before[k]
        decreases |rest|
      {
        var x :| x in rest;
        rest := rest - {x};
        if !Lists(desired, x) {
          bindings := bindings[(store, x) := false];
        }
      }
      assert bindings == SwitchedOff(before, store, desired);
    }

    /** The second write loop: the requested bindings, one upsert each. */
    method UpsertDesired(store: Uuid, desired: seq<(Uuid, bool)>)
      modifies this`bindings
      ensures bindings == Upserted(old(bindings), store, desired)
    {
      ghost var before := bindings;
      for i := 0 to |desired|
        invariant bindings == Upserted(before, store, desired[..i])
      {
        assert desired[..i + 1][..i] == desired[..i];
        bindings := bindings[(store, desired[i].0) := desired[i].1];
      }
      assert desired[..|desired|] == desired;
    }

    method ReplaceStoreMethods(store: Uuid, desired: seq<(Uuid, bool)>) returns (r: Option<StoreError>)
      modifies this`bindings
      ensures View() == Step(old(View()), Replace(store, desired))
      ensures r.None? <==> Perform(old(View()), Replace(store, desired)).Ok?
    {
      r := CheckRequest(desired);
      if r.Some? {
        return r;
      }
      if store !in stores {
        return Some(StoreNotFound);
      }
      r := CheckDesired(desired);
      if r.Some? {
        return r;
      }
      SwitchOffOmitted(store, desired);
      UpsertDesired(store, desired);
      return None;
    }

    method UpdateStoreMethod(store: Uuid, m: Uuid, wanted: Option<bool>, sorted: bool) returns (r: Option<StoreError>)
      modifies this`bindings
      ensures View() == Step(old(View()), Update(store, m, wanted, sorted))
      ensures r.None? <==> Perform(old(View()), Update(store, m, wanted, sorted)).Ok?
    {
      if wanted.None? && !sorted {
        return Some(ValidationError);
      }
      if store !in stores {
        return Some(StoreNotFound);
      }
      if m !in methods {
        return Some(MethodNotFound);
      }
      var found := (store, m) in bindings;
      if !found && wanted.None? {
        return Some(BindingNotFound);
      }
      var current := found && bindings[(store, m)];
      var active := current;
      if wanted.Some? {
        active := wanted.value;
      }
      if active && !methods[m] {
        return Some(MethodInactive);
      }
      if current && !active {
        var count := |Operational(Db(methods, stores, bindings, openSales), store)|;
        if count <= 1 {
          return Some(LastOperationalMethod);
        }
      }
      bindings := bindings[(store, m) := active];
      return None;
    }

    method SetStoreStatus(store: Uuid, target: StoreStatus) returns (r: Option<StoreError>)
      modifies this`stores
      ensures View() == Step(old(View()), SetStore(store, target))
      ensures r.None? <==> Perform(old(View()), SetStore(store, target)).Ok?
    {
      if store !in stores {
        return Some(StoreNotFound);
      }
      var current := stores[store];
      if current == target {
        return None;
      }
      if current == ARCHIVED {
        return Some(StoreArchived);
      }
      if current == ACTIVE {
        if store in openSales {
          return Some(StoreHasOpenSales);
        }
        var activeStores := set s | s in stores && stores[s] == ACTIVE;
        assert activeStores == ActiveStores(View());
        if |activeStores| <= 1 {
          return Some(LastActiveStore);
        }
      }
      stores := stores[store := target];
      return None;
    }
  }
}
