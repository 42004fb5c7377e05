/**
 What each command on payment methods and stores needs and what it does, told by its inputs
 and the tables before and after.
 */
module StoreMethodEffects {
  import opened Results
  import opened Identifiers
  import opened PaymentMethods
  import Sets

  // ----- one method of one store -----

  /** The value asked for, or the present one. */
  function Intended(db: Db, store: Uuid, m: Uuid, wanted: Option<bool>): bool {
    if wanted.Some? then wanted.value else BindingActive(db, store, m)
  }

  /** Two methods that are active in the store and in the organization. */
  ghost predicate HasTwo(db: Db, store: Uuid) {
    exists m, n :: m in Operational(db, store) && n in Operational(db, store) && m != n
  }

  lemma HasTwoIff(db: Db, store: Uuid)
    ensures HasTwo(db, store) <==> |Operational(db, store)| > 1
  {
    var all := Operational(db, store);
    if |all| > 1 {
      var m :| m in all;
      var n := Sets.OtherElement(all, m);
      assert m in all && n in all && m != n;
    }
    if HasTwo(db, store) {
      var m, n :| m in all && n in all && m != n;
      Sets.SubsetSize({m, n}, all);
      assert |{m, n}| == 2;
    }
  }

  /** Switching a method on or off in a store writes exactly the value asked for, exactly if
      the method is not to be on although the organization has switched it off, and a binding
      is only switched off beside two operational methods. */
  lemma UpdateMethodIff(db: Db, store: Uuid, m: Uuid, wanted: Option<bool>, sorted: bool)
    ensures var r, on := UpdateStoreMethod(db, store, m, wanted, sorted), Intended(db, store, m, wanted);
      && (r.Ok? <==>
            && (wanted.Some? || (sorted && (store, m) in db.bindings)) && store in db.stores && m in db.methods
            && (on ==> db.methods[m])
            && (BindingActive(db, store, m) && !on ==> HasTwo(db, store)))
      && (r.Ok? ==>
            && r.value == db.(bindings := r.value.bindings)
            && r.value.bindings.Keys == db.bindings.Keys + {(store, m)} && r.value.bindings[(store, m)] == on
            && forall k :: k in db.bindings && k != (store, m) ==> r.value.bindings[k] == db.bindings[k])
  {
    HasTwoIff(db, store);
  }

  /** The refusal to take a store's last operational method is needed exactly if the method is
      active in the organization: a binding left over from an inactive one is refused too,
      although switching it off would take nothing from the store. */
  lemma RefusalIsNeededIff(db: Db, store: Uuid, m: Uuid, wanted: Option<bool>, sorted: bool)
    requires UpdateStoreMethod(db, store, m, wanted, sorted) == Err(LastOperationalMethod)
    ensures m in db.methods
    ensures Operational(db.(bindings := db.bindings[(store, m) := false]), store) == {} <==>
      db.methods[m] || Operational(db, store) == {}
  {
    var after := db.(bindings := db.bindings[(store, m) := false]);
    HasTwoIff(db, store);
    assert forall n :: n in Operational(after, store) <==> n in Operational(db, store) && n != m;
    if db.methods[m] {
      assert m in Operational(db, store);
    }
  }

  /** Afterwards the store operates with its methods as before, but for this one. */
  lemma UpdateMethodEffect(db: Db, store: Uuid, m: Uuid, wanted: Option<bool>, sorted: bool)
    requires UpdateStoreMethod(db, store, m, wanted, sorted).Ok?
    ensures var after := UpdateStoreMethod(db, store, m, wanted, sorted).value;
      && (m in Operational(after, store) <==> Intended(db, store, m, wanted))
      && (forall n :: n != m ==> (n in Operational(after, store) <==> n in Operational(db, store)))
      && (forall s :: s != store ==> Operational(after, s) == Operational(db, s))
  {
    var after := UpdateStoreMethod(db, store, m, wanted, sorted).value;
    forall s | s != store ensures Operational(after, s) == Operational(db, s) {
      assert forall n :: BindingActive(after, s, n) <==> BindingActive(db, s, n);
    }
  }

  // ----- all methods of one store -----

  /** A replacement is accepted exactly if it lists known methods once each, at least one of
      them to be active, and none to be active that the organization has switched off. */
  lemma ReplacementIff(db: Db, store: Uuid, desired: seq<(Uuid, bool)>)
    ensures ReplaceStoreMethods(db, store, desired).Ok? <==>
      && store in db.stores && NoDuplicates(desired) && WantsOne(desired)
      && forall i :: 0 <= i < |desired| ==>
           desired[i].0 in db.methods && (desired[i].1 ==> db.methods[desired[i].0])
    ensures ReplaceStoreMethods(db, store, desired).Ok? ==>
      var after := ReplaceStoreMethods(db, store, desired).value;
      after == db.(bindings := after.bindings)
  {
    DesiredErrorIff(db.methods, desired);
  }

  lemma {:induction false} DesiredErrorIff(methods: map<Uuid, bool>, desired: seq<(Uuid, bool)>)
    ensures DesiredError(methods, desired).None? <==>
      forall i :: 0 <= i < |desired| ==> desired[i].0 in methods && (desired[i].1 ==> methods[desired[i].0])
  {
    if desired != [] {
      var rest := desired[1..];
      DesiredErrorIff(methods, rest);
      assert forall i :: 0 < i < |desired| ==> desired[i] == rest[i - 1];
    }
  }

  // ----- a method of the organization -----

  /** A method's status becomes what is asked for and nothing else changes; switching on
      always works, switching off needs the check to pass and another active method. */
  lemma MethodStatusIff(db: Db, m: Uuid, active: bool, listings: nat -> seq<Uuid>)
    ensures var r := SetMethodStatus(db, m, active, listings);
      && (r.Ok? <==>
            && m in db.methods
            && (db.methods[m] && !active ==>
                  && PagedCheck(db, m, listings, 0).None?
                  && exists n :: n != m && n in ActiveMethods(db)))
      && (r.Ok? ==> r.value == db.(methods := db.methods[m := active]))
  {
    if m in db.methods && db.methods[m] {
      var all := ActiveMethods(db);
      assert m in all;
      if |all| > 1 {
        var n := Sets.OtherElement(all, m);
      }
      if n :| n != m && n in all {
        Sets.SubsetSize({m, n}, all);
      }
    }
    if m in db.methods { assert db.methods[m := db.methods[m]] == db.methods; }
  }

  // ----- a store -----

  /** A store's status becomes what is asked for and nothing else changes; an archived store
      stays so, and an active one is given up only without open sales and beside another. */
  lemma StoreStatusIff(db: Db, store: Uuid, target: StoreStatus)
    ensures var r := SetStoreStatus(db, store, target);
      && (r.Ok? <==>
            && store in db.stores
            && (db.stores[store] != target ==>
                  && db.stores[store] != ARCHIVED
                  && (db.stores[store] == ACTIVE ==>
                        store !in db.openSales && exists s :: s != store && s in ActiveStores(db))))
      && (r.Ok? ==> r.value == db.(stores := db.stores[store := target]))
      && (store in db.stores && db.stores[store] == ACTIVE && target != ACTIVE && store in db.openSales ==>
            r == Err(StoreHasOpenSales))
  {
    if store in db.stores && db.stores[store] == ACTIVE {
      var all := ActiveStores(db);
      assert store in all;
      if |all| > 1 {
        var s := Sets.OtherElement(all, store);
      }
      if s :| s != store && s in all {
        Sets.SubsetSize({store, s}, all);
      }
    }
    if store in db.stores { assert db.stores[store := db.stores[store]] == db.stores; }
  }

  /** A new store is active; with copying it operates with every active method of the
      organization, without with none, and no other store is touched. */
  lemma NewStoreEffect(db: Db, store: Uuid, copy: bool)
    requires Inv(db)
    ensures var r := CreateStore(db, store, copy);
      && (r.Ok? <==> store !in db.stores)
      && (r.Ok? ==>
            && r.value.stores == db.stores[store := ACTIVE] && r.value.methods == db.methods
            && Operational(r.value, store) == (if copy then ActiveMethods(db) else {})
            && forall s :: s != store ==> Operational(r.value, s) == Operational(db, s))
  {
    if store !in db.stores {
      var after := CreateStore(db, store, copy).value;
      forall s | s != store ensures Operational(after, s) == Operational(db, s) {
        assert forall n :: BindingActive(after, s, n) <==> BindingActive(db, s, n);
      }
    }
  }
}
