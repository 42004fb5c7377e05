/**
 Row locks of concurrent transactions. A checkout locks its sale row and then stock rows
 in ascending product key; edits lock one sale row, stock movements one stock row. Locks
 are held until commit or rollback.
 */
module RowLocks {
  import opened Identifiers
  import opened StockDemand
  import opened Sales

  datatype Row = SaleRow(sale: Uuid) | StockRow(product: Uuid)

  /** A transaction: the rows it locks, in order, and how many it has by now. */
  datatype Actor = Actor(program: seq<Row>, held: nat, done: bool)

  type State = seq<Actor>

  datatype Move = Acquire(actor: nat) | Commit(actor: nat) | Rollback(actor: nat)

  function StockRows(keys: seq<Uuid>): seq<Row> {
    seq(|keys|, i requires 0 <= i < |keys| => StockRow(keys[i]))
  }

  function CheckoutProgram(sale: Uuid, items: seq<Item>): seq<Row> {
    [SaleRow(sale)] + StockRows(SortedKeys(items))
  }

  /** One order over all rows: sales first, then stock by product key. */
  function Rank(r: Row): nat {
    match r
    case SaleRow(s) => s
    case StockRow(p) => UUID_LIMIT + p
  }

  predicate Ordered(program: seq<Row>) {
    forall i, j :: 0 <= i < j < |program| ==> Rank(program[i]) < Rank(program[j])
  }

  /** Every checkout, edit and stock movement locks in this order. */
  lemma ProgramsAreOrdered(sale: Uuid, items: seq<Item>, product: Uuid)
    ensures Ordered(CheckoutProgram(sale, items)) && Ordered([SaleRow(sale)]) && Ordered([StockRow(product)])
  {
    var keys := SortedKeys(items);
    SortedKeysSpec(items);
    var program := CheckoutProgram(sale, items);
    assert forall i :: 0 < i < |program| ==> program[i] == StockRow(keys[i - 1]);
  }

  /** A checkout locks its sale and the stock of exactly the products it sells. */
  lemma CheckoutLocksWhatItSells(sale: Uuid, items: seq<Item>, row: Row)
    ensures row in CheckoutProgram(sale, items)
       <==> row == SaleRow(sale) || (row.StockRow? && Demanded(items, row.product))
  {
    var keys, program := SortedKeys(items), CheckoutProgram(sale, items);
    SortedKeysSpec(items);
    assert program[0] == SaleRow(sale);
    if row.StockRow? && row.product in keys {
      var i :| 0 <= i < |keys| && keys[i] == row.product;
      assert program[i + 1] == row;
    }
  }

  // ----- the lock table -----

  predicate ActorOk(a: Actor) {
    a.held <= |a.program|
  }

  predicate Holds(st: State, i: nat, row: Row)
    requires i < |st| && st[i].held <= |st[i].program|
  {
    !st[i].done && row in st[i].program[..st[i].held]
  }

  /** `i` is stuck on a row that `j` holds. */
  predicate Waits(st: State, i: nat, j: nat)
    requires i < |st| && j < |st| && ActorOk(st[i]) && ActorOk(st[j])
  {
    i != j && !st[i].done && st[i].held < |st[i].program| && Holds(st, j, st[i].program[st[i].held])
  }

  predicate AllOk(st: State) {
    forall i :: 0 <= i < |st| ==> ActorOk(st[i])
  }

  /** Every transaction follows the common order. */
  predicate AllOrdered(st: State) {
    forall i :: 0 <= i < |st| ==> Ordered(st[i].program)
  }

  predicate Exclusive(st: State)
    requires AllOk(st)
  {
    forall i, j, k :: 0 <= i < |st| && 0 <= j < |st| && i != j && !st[i].done && 0 <= k < st[i].held ==>
      !Holds(st, j, st[i].program[k])
  }

  predicate Enabled(st: State, m: Move)
    requires AllOk(st)
  {
    match m
    case Acquire(i) =>
      i < |st| && !st[i].done && st[i].held < |st[i].program| && forall j :: 0 <= j < |st| ==> !Waits(st, i, j)
    case Commit(i) => i < |st| && !st[i].done && st[i].held == |st[i].program|
    case Rollback(i) => i < |st| && !st[i].done
  }

  function Apply(st: State, m: Move): State
    requires AllOk(st) && Enabled(st, m)
  {
    match m
    case Acquire(i) => st[i := st[i].(held := st[i].held + 1)]
    case Commit(i) => st[i := st[i].(done := true)]
    case Rollback(i) => st[i := st[i].(done := true)]
  }

  function Weight(st: State): nat {
    if st == [] then 0
    else Weight(st[..|st| - 1]) + ActorWeight(st[|st| - 1])
  }

  function ActorWeight(a: Actor): nat {
    if a.done then 0 else if a.held <= |a.program| then |a.program| - a.held + 1 else 1
  }

  // ----- safety -----

  /** No two unfinished transactions ever hold the same row. */
  lemma MoveKeepsExclusion(st: State, m: Move)
    requires AllOk(st) && Exclusive(st) && Enabled(st, m)
    ensures AllOk(Apply(st, m)) && Exclusive(Apply(st, m)) && (AllOrdered(st) ==> AllOrdered(Apply(st, m)))
  {
    var next := Apply(st, m);
    forall i, j, k | 0 <= i < |next| && 0 <= j < |next| && i != j && !next[i].done && 0 <= k < next[i].held
      ensures !Holds(next, j, next[i].program[k])
    {
      var row := st[i].program[k];
      if m == Acquire(i) && k == st[i].held {
        assert !Waits(st, i, j);
      } else {
        assert !Holds(st, j, row);
        if m == Acquire(j) {
          var a := st[j];
          assert a.program[..a.held + 1] == a.program[..a.held] + [a.program[a.held]];
          assert !Waits(st, j, i);
          assert row in st[i].program[..st[i].held] by { assert st[i].program[..st[i].held][k] == row; }
        }
      }
    }
  }

  // ----- no cycle, progress, termination -----

  function WantRank(a: Actor): nat
    requires a.held < |a.program|
  {
    Rank(a.program[a.held])
  }

  /** Whoever holds the row another waits for wants, if anything, a higher row. */
  lemma WaitingRaisesRank(st: State, i: nat, j: nat)
    requires AllOk(st) && i < |st| && j < |st| && Waits(st, i, j) && st[j].held < |st[j].program|
    requires AllOrdered(st)
    ensures WantRank(st[i]) < WantRank(st[j])
  {
    var row := st[i].program[st[i].held];
    var k :| 0 <= k < st[j].held && st[j].program[..st[j].held][k] == row;
    assert st[j].program[k] == row;
  }

  /** `path` follows the wait-for relation. */
  predicate WaitPath(st: State, path: seq<nat>)
    requires AllOk(st)
  {
    && |path| > 0 && (forall k :: 0 <= k < |path| ==> path[k] < |st|)
    && (forall k :: 0 <= k < |path| - 1 ==> Waits(st, path[k], path[k + 1]))
  }

  lemma {:induction false} PathRaisesRank(st: State, path: seq<nat>)
    requires AllOk(st) && AllOrdered(st) && |path| > 1 && WaitPath(st, path)
    requires st[path[|path| - 1]].held < |st[path[|path| - 1]].program|
    ensures st[path[0]].held < |st[path[0]].program|
    ensures WantRank(st[path[0]]) < WantRank(st[path[|path| - 1]])
    decreases |path|
  {
    var n := |path|;
    assert Waits(st, path[0], path[1]);
    assert Waits(st, path[n - 2], path[n - 1]);
    WaitingRaisesRank(st, path[n - 2], path[n - 1]);
    if n > 2 {
      PathRaisesRank(st, path[..n - 1]);
    }
  }

  /** The wait-for relation of ordered transactions has no cycle. */
  lemma NoWaitCycle(st: State, path: seq<nat>)
    requires AllOk(st) && AllOrdered(st) && |path| > 1 && WaitPath(st, path)
    ensures path[0] != path[|path| - 1]
  {
    assert Waits(st, path[0], path[1]);
    if path[0] == path[|path| - 1] {
      PathRaisesRank(st, path);
    }
  }

  lemma {:induction false} RankBound(program: seq<Row>, i: nat)
    requires i < |program|
    ensures Rank(program[i]) < 2 * UUID_LIMIT
  {
  }

  /** Following who waits for whom ends at a transaction that can lock its next row or commit. */
  lemma {:induction false} SomeoneProceeds(st: State, i: nat) returns (m: Move)
    requires AllOk(st) && AllOrdered(st) && i < |st| && !st[i].done
    ensures Enabled(st, m) && !m.Rollback?
    decreases if st[i].held < |st[i].program| then 2 * UUID_LIMIT - WantRank(st[i]) else 0
  {
    if st[i].held == |st[i].program| {
      return Commit(i);
    }
    RankBound(st[i].program, st[i].held);
    if j :| 0 <= j < |st| && Waits(st, i, j) {
      if st[j].held < |st[j].program| {
        WaitingRaisesRank(st, i, j);
        RankBound(st[j].program, st[j].held);
      }
      m := SomeoneProceeds(st, j);
    } else {
      m := Acquire(i);
    }
  }

  lemma {:induction false} WeightOfUpdate(st: State, i: nat, a: Actor)
    requires i < |st|
    ensures Weight(st[i := a]) == Weight(st) - ActorWeight(st[i]) + ActorWeight(a)
  {
    var n := |st| - 1;
    if i < n {
      WeightOfUpdate(st[..n], i, a);
      assert st[i := a][..n] == st[..n][i := a];
    } else {
      assert st[i := a][..n] == st[..n];
    }
  }

  lemma MovesAreSpent(st: State, m: Move)
    requires AllOk(st) && Enabled(st, m)
    ensures Weight(Apply(st, m)) < Weight(st)
  {
    match m
    case Acquire(i) => WeightOfUpdate(st, i, st[i].(held := st[i].held + 1));
    case Commit(i) => WeightOfUpdate(st, i, st[i].(done := true));
    case Rollback(i) => WeightOfUpdate(st, i, st[i].(done := true));
  }

  /** `trace` is a run of enabled moves from its first state. */
  predicate Run(trace: seq<State>, moves: seq<Move>) {
    && |trace| == |moves| + 1
    && (forall k :: 0 <= k < |trace| ==> AllOk(trace[k]))
    && (forall k :: 0 <= k < |moves| ==> Enabled(trace[k], moves[k]) && trace[k + 1] == Apply(trace[k], moves[k]))
  }

  predicate Fresh(st: State) {
    forall i :: 0 <= i < |st| ==> st[i].held == 0 && !st[i].done
  }

  /** Nothing can go on but by rolling a transaction back. */
  ghost predicate Stuck(st: State)
    requires AllOk(st)
  {
    forall m :: Enabled(st, m) ==> m.Rollback?
  }

  predicate AllDone(st: State) {
    forall i :: 0 <= i < |st| ==> st[i].done
  }

  /** However any number of transactions interleave: no row is ever shared and the run
      cannot be longer than the locks and commits there are; if all follow the common
      order, then as long as one is unfinished some transaction can go on. */
  lemma {:induction false} LockingIsSafe(trace: seq<State>, moves: seq<Move>)
    requires Run(trace, moves) && Fresh(trace[0])
    ensures Exclusive(trace[|moves|])
    ensures |moves| + Weight(trace[|moves|]) <= Weight(trace[0])
    ensures AllOrdered(trace[0]) ==> AllOrdered(trace[|moves|]) && (Stuck(trace[|moves|]) ==> AllDone(trace[|moves|]))
    decreases |moves|
  {
    var n := |moves|;
    var last := trace[n];
    if n > 0 {
      var init, before := trace[..n], moves[..n - 1];
      assert forall k :: 0 <= k < n - 1 ==> Enabled(init[k], before[k]) && init[k + 1] == Apply(init[k], before[k]) by {
        forall k | 0 <= k < n - 1 ensures Enabled(init[k], before[k]) && init[k + 1] == Apply(init[k], before[k]) {
          assert trace[k + 1] == Apply(trace[k], moves[k]);
        }
      }
      LockingIsSafe(init, before);
      assert Enabled(trace[n - 1], moves[n - 1]) && last == Apply(trace[n - 1], moves[n - 1]);
      MoveKeepsExclusion(trace[n - 1], moves[n - 1]);
      MovesAreSpent(trace[n - 1], moves[n - 1]);
    }
    if AllOrdered(last) { OrderedStuckIsDone(last); }
  }

  lemma OrderedStuckIsDone(st: State)
    requires AllOk(st) && AllOrdered(st)
    ensures Stuck(st) ==> AllDone(st)
  {
    forall i | 0 <= i < |st| && !st[i].done ensures exists m :: Enabled(st, m) && !m.Rollback? {
      var m := SomeoneProceeds(st, i);
    }
  }

  /** Without the common order two transactions can run into waiting for each other, and
      nothing but a rollback helps. */
  lemma UnorderedCanDeadlock(p: Uuid, q: Uuid) returns (trace: seq<State>, moves: seq<Move>)
    requires p != q
    ensures Run(trace, moves) && Fresh(trace[0])
    ensures trace[0] == [Actor([StockRow(p), StockRow(q)], 0, false), Actor([StockRow(q), StockRow(p)], 0, false)]
    ensures WaitPath(trace[|moves|], [0, 1, 0]) && Stuck(trace[|moves|]) && !AllDone(trace[|moves|])
  {
    var a, b := Actor([StockRow(p), StockRow(q)], 0, false), Actor([StockRow(q), StockRow(p)], 0, false);
    var st0, st1, st2 := [a, b], [a.(held := 1), b], [a.(held := 1), b.(held := 1)];
    moves, trace := [Acquire(0), Acquire(1)], [st0, st1, st2];
    assert st1[0].program[..1] == [StockRow(p)] && st2[1].program[..1] == [StockRow(q)];
    assert Enabled(st0, Acquire(0)) && st1 == Apply(st0, Acquire(0));
    assert Enabled(st1, Acquire(1)) && st2 == Apply(st1, Acquire(1));
    assert Waits(st2, 0, 1) && Waits(st2, 1, 0);
  }
}
