/**
 The last-owner rule of one organization, as an interleaving of many transactions. Each
 locks, counts, decides and commits in separate steps; other transactions may take any of
 theirs in between. Writes become visible at commit, locks are held until then.
 */
module Owners {
  import opened Results
  import opened Identifiers
  import opened Sets

  datatype Status = ACTIVE | SUSPENDED | REMOVED

  /** `ownerKey`: the role's key is "owner". */
  datatype Role = Role(ownerKey: bool, system: bool, active: bool)

  /** Organization-wide role bindings only: the owner role takes no store, and a binding to
      it cannot expire, so others never make an owner. */
  datatype Db = Db(status: map<Uuid, Status>, roles: map<Uuid, Role>, bindings: set<(Uuid, Uuid)>)

  datatype Job =
    | UpdateStatus(target: Uuid, to: Status)
    | DeleteBinding(target: Uuid, role: Uuid)
    | CreateBinding(target: Uuid, role: Uuid)
    | AcceptExisting(target: Uuid, granted: set<Uuid>)
    | AcceptNew(member: Uuid, granted: set<Uuid>)
    | SetRoleActive(role: Uuid, active: bool)
    | CreateRole(role: Uuid, ownerKey: bool)

  datatype Stage = Working | Approved | Finished

  /** A transaction: what it has locked, and the owners it counted. */
  datatype Actor = Actor(job: Job, org: bool, locked: bool, counted: Option<set<Uuid>>, stage: Stage)

  /** `rows` says which transaction holds each membership row. */
  datatype State = State(db: Db, actors: seq<Actor>, org: Option<nat>, rows: map<Uuid, nat>)

  datatype Move =
    | LockOrganization(actor: nat)
    | CountOwners(actor: nat, counted: set<Uuid>)
    | LockTarget(actor: nat)
    | Decide(actor: nat)
    | Commit(actor: nat)
    | Abort(actor: nat)

  predicate IsOwnerRole(db: Db, r: Uuid) {
    r in db.roles && db.roles[r].ownerKey && db.roles[r].system && db.roles[r].active
  }

  predicate HasOwnerBinding(db: Db, m: Uuid) {
    exists b :: b in db.bindings && b.0 == m && IsOwnerRole(db, b.1)
  }

  predicate IsActiveOwner(db: Db, m: Uuid) {
    m in db.status && db.status[m] == ACTIVE && HasOwnerBinding(db, m)
  }

  function ActiveOwners(db: Db): set<Uuid> {
    set m | m in db.status && IsActiveOwner(db, m)
  }

  predicate ValidTransition(from: Status, to: Status) {
    (from == ACTIVE && (to == SUSPENDED || to == REMOVED)) || (from == SUSPENDED && (to == ACTIVE || to == REMOVED))
  }

  function Target(job: Job): Option<Uuid> {
    match job
    case UpdateStatus(t, _) => Some(t)
    case DeleteBinding(t, _) => Some(t)
    case CreateBinding(t, _) => Some(t)
    case AcceptExisting(t, _) => Some(t)
    case _ => None
  }

  predicate ReducesOwners(job: Job) {
    job.UpdateStatus? || job.DeleteBinding?
  }

  /** A binding deletion counts only when the role is the system's owner role. */
  predicate NeedsCount(db: Db, job: Job) {
    || job.UpdateStatus?
    || (job.DeleteBinding? && job.role in db.roles && db.roles[job.role].ownerKey && db.roles[job.role].system)
  }

  /** All the locks and the count the decision is made under. */
  predicate Ready(db: Db, a: Actor) {
    && (ReducesOwners(a.job) ==> a.org)
    && (Target(a.job).Some? ==> a.locked)
    && (NeedsCount(db, a.job) ==> a.counted.Some?)
  }

  function CountOf(a: Actor): nat {
    if a.counted.Some? then |a.counted.value| else 0
  }

  /** The decision, read under the locks. Scope checks of the acting user are left out:
      they only refuse more. */
  predicate Allowed(db: Db, a: Actor) {
    match a.job
    case UpdateStatus(t, to) =>
      && t in db.status && ValidTransition(db.status[t], to)
      && !(HasOwnerBinding(db, t) && db.status[t] == ACTIVE && to != ACTIVE && CountOf(a) <= 1)
    case DeleteBinding(t, r) =>
      && t in db.status && (t, r) in db.bindings
      && !(NeedsCount(db, a.job) && db.status[t] == ACTIVE && db.roles[r].active && CountOf(a) <= 1)
    case CreateBinding(t, r) => t in db.status && db.status[t] == ACTIVE && r in db.roles && db.roles[r].active
    case AcceptExisting(t, _) => t in db.status
    case AcceptNew(m, _) => m !in db.status
    case SetRoleActive(r, _) => r in db.roles && !db.roles[r].system
    case CreateRole(r, _) => r !in db.roles
  }

  function Grants(m: Uuid, roles: set<Uuid>): set<(Uuid, Uuid)> {
    set r | r in roles :: (m, r)
  }

  function Without(bindings: set<(Uuid, Uuid)>, m: Uuid): set<(Uuid, Uuid)> {
    set b | b in bindings && b.0 != m
  }

  /** What the transaction writes. Accepting reactivates a suspended member with the
      invitation's roles only; other members get them in addition. */
  function Effect(db: Db, job: Job): Db {
    match job
    case UpdateStatus(t, to) => db.(status := db.status[t := to])
    case DeleteBinding(t, r) => db.(bindings := db.bindings - {(t, r)})
    case CreateBinding(t, r) => db.(bindings := db.bindings + {(t, r)})
    case AcceptExisting(t, granted) =>
      if t in db.status && db.status[t] == SUSPENDED then
        db.(status := db.status[t := ACTIVE], bindings := Without(db.bindings, t) + Grants(t, granted))
      else db.(bindings := db.bindings + Grants(t, granted))
    case AcceptNew(m, granted) => db.(status := db.status[m := ACTIVE], bindings := db.bindings + Grants(m, granted))
    case SetRoleActive(r, active) =>
      if r in db.roles then db.(roles := db.roles[r := db.roles[r].(active := active)]) else db
    case CreateRole(r, ownerKey) => db.(roles := db.roles[r := Role(ownerKey, false, true)])
  }

  predicate FreeFor(st: State, i: nat, m: Uuid) {
    m !in st.rows || st.rows[m] == i
  }

  /** Status changes count before they lock their target, deletions after. Under READ
      COMMITTED the count may miss owners that appeared after its snapshot; it never
      includes one that is not an owner, and it locks every row it includes. */
  predicate Enabled(st: State, m: Move) {
    && m.actor < |st.actors|
    && var i, a := m.actor, st.actors[m.actor];
    match m
    case LockOrganization(_) => a.stage == Working && ReducesOwners(a.job) && st.org.None?
    case CountOwners(_, counted) =>
      && a.stage == Working && a.org && a.counted.None? && NeedsCount(st.db, a.job)
      && (a.locked <==> a.job.DeleteBinding?)
      && counted <= ActiveOwners(st.db) && forall m :: m in counted ==> FreeFor(st, i, m)
    case LockTarget(_) =>
      && a.stage == Working && !a.locked && Target(a.job).Some?
      && (ReducesOwners(a.job) ==> a.org) && (a.job.UpdateStatus? ==> a.counted.Some?)
      && Target(a.job).value in st.db.status && FreeFor(st, i, Target(a.job).value)
    case Decide(_) => a.stage == Working && Ready(st.db, a) && Allowed(st.db, a)
    case Commit(_) =>
      && a.stage == Approved
      && (a.job.AcceptNew? ==> a.job.member !in st.db.status) && (a.job.CreateRole? ==> a.job.role !in st.db.roles)
    case Abort(_) => a.stage != Finished
  }

  function Release(st: State, i: nat): State
    requires i < |st.actors|
  {
    State(st.db, st.actors[i := st.actors[i].(stage := Finished)], if st.org == Some(i) then None else st.org,
          map m | m in st.rows && st.rows[m] != i :: st.rows[m])
  }

  function Apply(st: State, m: Move): State
    requires Enabled(st, m)
  {
    var i, a := m.actor, st.actors[m.actor];
    match m
    case LockOrganization(_) => st.(actors := st.actors[i := a.(org := true)], org := Some(i))
    case CountOwners(_, counted) =>
      st.(actors := st.actors[i := a.(counted := Some(counted))], rows := st.rows + (map m | m in counted :: i))
    case LockTarget(_) =>
      st.(actors := st.actors[i := a.(locked := true)], rows := st.rows[Target(a.job).value := i])
    case Decide(_) => st.(actors := st.actors[i := a.(stage := Approved)])
    case Commit(_) => Release(st.(db := Effect(st.db, a.job)), i)
    case Abort(_) => Release(st, i)
  }

  // ----- invariant -----

  /** The count is a lower bound: everyone counted is an active owner, and stays one
      because the row is locked. */
  predicate CountHolds(st: State, i: nat)
    requires i < |st.actors|
  {
    st.actors[i].counted.Some? ==>
      forall m :: m in st.actors[i].counted.value ==> IsActiveOwner(st.db, m) && m in st.rows && st.rows[m] == i
  }

  predicate TargetHolds(st: State, i: nat)
    requires i < |st.actors|
  {
    st.actors[i].locked ==>
      && Target(st.actors[i].job).Some? && Target(st.actors[i].job).value in st.rows
      && st.rows[Target(st.actors[i].job).value] == i
  }

  /** An approved transaction that takes an active owner away has counted two. */
  predicate ApprovalHolds(st: State, i: nat)
    requires i < |st.actors|
  {
    var a := st.actors[i];
    a.stage == Approved ==>
      && (Target(a.job).Some? ==> a.locked)
      && (ReducesOwners(a.job) && LosesOwner(st.db, a.job) ==> CountOf(a) >= 2)
      && (a.job.SetRoleActive? ==> a.job.role in st.db.roles && !st.db.roles[a.job.role].system)
  }

  /** Carrying the job out would end its target's ownership. */
  predicate LosesOwner(db: Db, job: Job) {
    Target(job).Some? && IsActiveOwner(db, Target(job).value) && !IsActiveOwner(Effect(db, job), Target(job).value)
  }

  predicate ActorOk(st: State, i: nat)
    requires i < |st.actors|
  {
    st.actors[i].stage != Finished ==>
      CountHolds(st, i) && TargetHolds(st, i) && ApprovalHolds(st, i) && (st.actors[i].org ==> st.org == Some(i))
  }

  predicate Inv(st: State) {
    && (forall m :: m in st.rows ==> m in st.db.status)
    && (forall i :: 0 <= i < |st.actors| ==> ActorOk(st, i))
  }

  predicate NotStarted(a: Actor) {
    !a.org && !a.locked && a.counted == None && a.stage == Working
  }

  predicate Fresh(st: State) {
    && st.org == None && st.rows == map[]
    && forall i :: 0 <= i < |st.actors| ==> NotStarted(st.actors[i])
  }

  // ----- what a commit touches -----

  lemma OwnerBindingKept(db: Db, after: Db, m: Uuid)
    requires forall r :: (m, r) in db.bindings <==> (m, r) in after.bindings
    requires forall r :: IsOwnerRole(db, r) <==> IsOwnerRole(after, r)
    ensures HasOwnerBinding(db, m) <==> HasOwnerBinding(after, m)
  {
    if HasOwnerBinding(db, m) {
      var b :| b in db.bindings && b.0 == m && IsOwnerRole(db, b.1);
      assert b == (m, b.1) && b in after.bindings;
    }
    if HasOwnerBinding(after, m) {
      var b :| b in after.bindings && b.0 == m && IsOwnerRole(after, b.1);
      assert b == (m, b.1) && b in db.bindings;
    }
  }

  /** Roles can be created and, unless they are the system's, switched: no owner role changes. */
  lemma OwnerRolesKept(db: Db, job: Job, r: Uuid)
    requires job.SetRoleActive? ==> job.role in db.roles && !db.roles[job.role].system
    requires job.CreateRole? ==> job.role !in db.roles
    ensures IsOwnerRole(db, r) <==> IsOwnerRole(Effect(db, job), r)
  {
  }

  /** Only the target, or the member just created, can gain or lose ownership. */
  lemma OthersKeepOwnership(db: Db, job: Job, m: Uuid)
    requires job.SetRoleActive? ==> job.role in db.roles && !db.roles[job.role].system
    requires job.CreateRole? ==> job.role !in db.roles
    requires Target(job) != Some(m) && (job.AcceptNew? ==> job.member != m)
    ensures IsActiveOwner(db, m) <==> IsActiveOwner(Effect(db, job), m)
  {
    var after := Effect(db, job);
    forall r ensures IsOwnerRole(db, r) <==> IsOwnerRole(after, r) { OwnerRolesKept(db, job, r); }
    OwnerBindingKept(db, after, m);
  }

  /** Jobs other than status changes and deletions end nobody's ownership. */
  lemma OnlyReducersLose(db: Db, job: Job, m: Uuid)
    requires !ReducesOwners(job) && IsActiveOwner(db, m)
    requires job.SetRoleActive? ==> job.role in db.roles && !db.roles[job.role].system
    requires job.CreateRole? ==> job.role !in db.roles
    requires job.AcceptNew? ==> job.member !in db.status
    ensures IsActiveOwner(Effect(db, job), m)
  {
    var after := Effect(db, job);
    var b :| b in db.bindings && b.0 == m && IsOwnerRole(db, b.1);
    OwnerRolesKept(db, job, b.1);
    assert b in after.bindings;
  }

  // ----- steps -----

  /** What a decision under the locks establishes. */
  lemma ApprovalIsSafe(db: Db, a: Actor)
    requires Ready(db, a) && Allowed(db, a) && ReducesOwners(a.job) && LosesOwner(db, a.job)
    ensures CountOf(a) >= 2
  {
    var t := Target(a.job).value;
    if a.job.DeleteBinding? {
      var after := Effect(db, a.job);
      var b :| b in db.bindings && b.0 == t && IsOwnerRole(db, b.1);
      OwnerRolesKept(db, a.job, b.1);
      assert b !in after.bindings;
    }
  }

  lemma LockStepKeepsInv(st: State, m: Move)
    requires Inv(st) && Enabled(st, m) && (m.LockOrganization? || m.CountOwners? || m.LockTarget? || m.Decide?)
    ensures Inv(Apply(st, m))
  {
    var next, i := Apply(st, m), m.actor;
    assert ActorOk(st, i);
    forall j | 0 <= j < |next.actors| ensures ActorOk(next, j) {
      assert ActorOk(st, j);
    }
    if m.Decide? && ReducesOwners(st.actors[i].job) && LosesOwner(st.db, st.actors[i].job) {
      ApprovalIsSafe(st.db, st.actors[i]);
    }
  }

  lemma ReleaseKeepsInv(st: State, i: nat)
    requires Inv(st) && i < |st.actors|
    ensures Inv(Release(st, i))
  {
    forall j | 0 <= j < |st.actors| ensures ActorOk(Release(st, i), j) {
      assert ActorOk(st, j);
    }
  }

  /** Another transaction's locked rows and pending approval survive the commit. */
  lemma CommitLeavesOthers(st: State, i: nat, j: nat)
    requires Inv(st) && Enabled(st, Commit(i)) && j < |st.actors| && j != i
    ensures ActorOk(Apply(st, Commit(i)), j)
  {
    var next, job := Apply(st, Commit(i)), st.actors[i].job;
    assert ActorOk(st, i) && ActorOk(st, j);
    if st.actors[j].stage != Finished {
      forall m | m in st.rows && st.rows[m] == j ensures IsActiveOwner(st.db, m) <==> IsActiveOwner(next.db, m) {
        OthersKeepOwnership(st.db, job, m);
      }
      if st.actors[j].stage == Approved && ReducesOwners(st.actors[j].job) {
        LossUnchanged(st, i, j);
      }
    }
  }

  /** Whether a pending job would end its target's ownership does not change under it. */
  lemma LossUnchanged(st: State, i: nat, j: nat)
    requires Inv(st) && Enabled(st, Commit(i)) && j < |st.actors| && j != i
    requires st.actors[j].stage == Approved && ReducesOwners(st.actors[j].job)
    ensures LosesOwner(Effect(st.db, st.actors[i].job), st.actors[j].job) ==> LosesOwner(st.db, st.actors[j].job)
  {
    assert ActorOk(st, i) && ActorOk(st, j);
    var job, pending := st.actors[i].job, st.actors[j].job;
    var t := Target(pending).value;
    var after := Effect(st.db, job);
    forall r ensures IsOwnerRole(st.db, r) <==> IsOwnerRole(after, r) { OwnerRolesKept(st.db, job, r); }
    OthersKeepOwnership(st.db, job, t);
    forall r ensures (t, r) in Effect(st.db, pending).bindings <==> (t, r) in Effect(after, pending).bindings {
    }
    forall r ensures IsOwnerRole(Effect(st.db, pending), r) <==> IsOwnerRole(Effect(after, pending), r) {
      OwnerRolesKept(st.db, pending, r);
      OwnerRolesKept(after, pending, r);
    }
    OwnerBindingKept(Effect(st.db, pending), Effect(after, pending), t);
  }

  lemma StepKeepsInv(st: State, m: Move)
    requires Inv(st) && Enabled(st, m)
    ensures Inv(Apply(st, m))
  {
    match m
    case Commit(i) =>
      var next := Apply(st, m);
      assert ActorOk(st, i);
      forall j | 0 <= j < |next.actors| ensures ActorOk(next, j) {
        if j != i { CommitLeavesOthers(st, i, j); }
      }
    case Abort(i) => ReleaseKeepsInv(st, i);
    case _ => LockStepKeepsInv(st, m);
  }

  /** Carrying a job out leaves an owner when whoever takes one away has counted two. */
  lemma EffectKeepsAnOwner(db: Db, job: Job, counted: set<Uuid>)
    requires ActiveOwners(db) != {}
    requires ReducesOwners(job) && LosesOwner(db, job) ==> counted <= ActiveOwners(db) && |counted| >= 2
    requires job.SetRoleActive? ==> job.role in db.roles && !db.roles[job.role].system
    requires job.CreateRole? ==> job.role !in db.roles
    requires job.AcceptNew? ==> job.member !in db.status
    ensures ActiveOwners(Effect(db, job)) != {}
  {
    var after := Effect(db, job);
    var o :| o in ActiveOwners(db);
    if ReducesOwners(job) {
      var t := Target(job).value;
      var keep := o;
      if LosesOwner(db, job) {
        keep := OtherElement(counted, t);
      }
      if keep != t {
        OthersKeepOwnership(db, job, keep);
      }
      assert keep in ActiveOwners(after);
    } else {
      OnlyReducersLose(db, job, o);
      assert o in ActiveOwners(after);
    }
  }

  /** No step leaves an organization that has an active owner without one. */
  lemma StepKeepsAnOwner(st: State, m: Move)
    requires Inv(st) && Enabled(st, m) && ActiveOwners(st.db) != {}
    ensures ActiveOwners(Apply(st, m).db) != {}
  {
    if m.Commit? {
      var a := st.actors[m.actor];
      assert ActorOk(st, m.actor);
      var counted := if a.counted.Some? then a.counted.value else {};
      assert counted <= ActiveOwners(st.db);
      EffectKeepsAnOwner(st.db, a.job, counted);
    }
  }

  // ----- runs -----

  predicate Run(trace: seq<State>, moves: seq<Move>) {
    && |trace| == |moves| + 1
    && forall k :: 0 <= k < |moves| ==> Enabled(trace[k], moves[k]) && trace[k + 1] == Apply(trace[k], moves[k])
  }

  /** The count a transaction made is at most the true number of active owners, in every
      state until it ends. */
  predicate CountsAreLowerBounds(st: State) {
    forall i :: 0 <= i < |st.actors| && st.actors[i].stage != Finished ==>
      CountOf(st.actors[i]) <= |ActiveOwners(st.db)|
  }

  lemma CountIsLowerBound(st: State)
    requires Inv(st)
    ensures CountsAreLowerBounds(st)
  {
    forall i | 0 <= i < |st.actors| && st.actors[i].stage != Finished
      ensures CountOf(st.actors[i]) <= |ActiveOwners(st.db)|
    {
      assert ActorOk(st, i);
      if st.actors[i].counted.Some? {
        assert st.actors[i].counted.value <= ActiveOwners(st.db);
        SubsetSize(st.actors[i].counted.value, ActiveOwners(st.db));
      }
    }
  }

  /** However any number of status changes, binding changes, role edits and acceptances
      interleave, an organization that starts with an active owner always has one, and
      every count in flight stays a lower bound. */
  lemma {:induction false} OwnerIsNeverLost(trace: seq<State>, moves: seq<Move>)
    requires Run(trace, moves) && Fresh(trace[0]) && ActiveOwners(trace[0].db) != {}
    ensures Inv(trace[|moves|]) && ActiveOwners(trace[|moves|].db) != {} && CountsAreLowerBounds(trace[|moves|])
    decreases |moves|
  {
    var n := |moves|;
    if n > 0 {
      var init, before := trace[..n], moves[..n - 1];
      forall k | 0 <= k < n - 1 ensures Enabled(init[k], before[k]) && init[k + 1] == Apply(init[k], before[k]) {
        assert Enabled(trace[k], moves[k]) && trace[k + 1] == Apply(trace[k], moves[k]);
      }
      OwnerIsNeverLost(init, before);
      assert Enabled(trace[n - 1], moves[n - 1]) && trace[n] == Apply(trace[n - 1], moves[n - 1]);
      StepKeepsInv(trace[n - 1], moves[n - 1]);
      StepKeepsAnOwner(trace[n - 1], moves[n - 1]);
    }
    CountIsLowerBound(trace[n]);
  }

  // ----- decisions still hold when they are carried out -----

  /** A transaction that has decided to change or to bind its target still may: the target
      has the status the decision was made for. */
  predicate DecisionHolds(db: Db, a: Actor) {
    a.stage == Approved ==>
      match a.job
      case UpdateStatus(t, to) => t in db.status && ValidTransition(db.status[t], to)
      case CreateBinding(t, _) => t in db.status && db.status[t] == ACTIVE
      case AcceptExisting(t, _) => t in db.status
      case _ => true
  }

  predicate DecisionsHold(st: State) {
    forall i :: 0 <= i < |st.actors| ==> DecisionHolds(st.db, st.actors[i])
  }

  predicate RemovedKept(before: Db, after: Db) {
    forall m :: m in before.status && before.status[m] == REMOVED ==> m in after.status && after.status[m] == REMOVED
  }

  /** Carrying out a decision that still holds restores no removed member, and changes the
      status of nobody but its target or a new member. */
  lemma EffectOnStatus(db: Db, a: Actor, m: Uuid)
    requires DecisionHolds(db, a) && a.stage == Approved && (a.job.AcceptNew? ==> a.job.member !in db.status)
    requires m in db.status
    ensures m in Effect(db, a.job).status
    ensures Target(a.job) != Some(m) || db.status[m] == REMOVED ==> Effect(db, a.job).status[m] == db.status[m]
  {
  }

  lemma StepKeepsDecisions(st: State, m: Move)
    requires Inv(st) && DecisionsHold(st) && Enabled(st, m)
    ensures DecisionsHold(Apply(st, m)) && RemovedKept(st.db, Apply(st, m).db)
  {
    var next := Apply(st, m);
    forall j | 0 <= j < |next.actors| ensures DecisionHolds(next.db, next.actors[j]) {
      assert DecisionHolds(st.db, st.actors[j]) && ActorOk(st, j) && ActorOk(st, m.actor);
      if m.Commit? && j != m.actor && st.actors[j].stage == Approved && Target(st.actors[j].job).Some? {
        EffectOnStatus(st.db, st.actors[m.actor], Target(st.actors[j].job).value);
      }
    }
    if m.Commit? {
      forall n | n in st.db.status && st.db.status[n] == REMOVED
        ensures n in next.db.status && next.db.status[n] == REMOVED
      {
        EffectOnStatus(st.db, st.actors[m.actor], n);
      }
    }
  }

  /** In every interleaving what a transaction decided under its locks still holds when it
      commits, and a removed member is never restored. */
  lemma {:induction false} DecisionsOutlastTheOthers(trace: seq<State>, moves: seq<Move>)
    requires Run(trace, moves) && Fresh(trace[0])
    ensures Inv(trace[|moves|]) && DecisionsHold(trace[|moves|]) && RemovedKept(trace[0].db, trace[|moves|].db)
    decreases |moves|
  {
    var n := |moves|;
    if n > 0 {
      var init, before := trace[..n], moves[..n - 1];
      forall k | 0 <= k < n - 1 ensures Enabled(init[k], before[k]) && init[k + 1] == Apply(init[k], before[k]) {
        assert Enabled(trace[k], moves[k]) && trace[k + 1] == Apply(trace[k], moves[k]);
      }
      DecisionsOutlastTheOthers(init, before);
      assert Enabled(trace[n - 1], moves[n - 1]) && trace[n] == Apply(trace[n - 1], moves[n - 1]);
      StepKeepsInv(trace[n - 1], moves[n - 1]);
      StepKeepsDecisions(trace[n - 1], moves[n - 1]);
    }
  }

  /** Two owner-reducing transactions are never between lock and commit together. */
  lemma ReducersAreSerial(st: State, i: nat, j: nat)
    requires Inv(st) && i < |st.actors| && j < |st.actors|
    requires st.actors[i].stage != Finished && st.actors[j].stage != Finished && st.actors[i].org && st.actors[j].org
    ensures i == j
  {
    assert ActorOk(st, i) && ActorOk(st, j);
  }

  /** Counting without keeping the rows locked would not do: two owners who each suspend
      the other on a count of two leave none. */
  lemma StaleCountsLoseTheLastOwner(a: Uuid, b: Uuid, owner: Uuid)
    requires a != b
    ensures var db := Db(map[a := ACTIVE, b := ACTIVE], map[owner := Role(true, true, true)], {(a, owner), (b, owner)});
      var left, right := Actor(UpdateStatus(a, SUSPENDED), true, true, Some({a, b}), Working),
                         Actor(UpdateStatus(b, SUSPENDED), true, true, Some({a, b}), Working);
      && Allowed(db, left) && Allowed(Effect(db, left.job), right)
      && ActiveOwners(Effect(Effect(db, left.job), right.job)) == {}
  {
    assert |{a, b}| == 2;
  }
}
