/**
 The members of one organization and how they come and go: invitations, acceptances,
 status changes and role bindings, one transaction a step. What happens when their
 phases interleave is the subject of Owners, whose organization `Org` projects out.
 */
module Memberships {
  import opened Results
  import opened Identifiers
  import opened Credentials
  import O = Owners

  datatype InvitationStatus = PENDING | ACCEPTED | REVOKED | EXPIRED

  /** `storeScoped`: bindings to the role name a store; otherwise they never do. */
  datatype Role = Role(ownerKey: bool, system: bool, active: bool, storeScoped: bool, scopes: set<string>)

  datatype Assignment = Assignment(role: Uuid, store: Option<Uuid>)

  /** A member has at most one binding to a role, or to a role in a store. */
  datatype Place = Place(member: Uuid, role: Uuid, store: Option<Uuid>)

  datatype Binding = Binding(created: int, expires: Option<int>)

  datatype Invitation = Invitation(status: InvitationStatus, email: string, secret: seq<int>, created: int,
                                   expires: int, granted: set<Assignment>)

  /** `stores` says which stores are active; `joined` lists the memberships in order of
      creation, `userOf` their users. */
  datatype Team = Team(status: map<Uuid, O.Status>, roles: map<Uuid, Role>, stores: map<Uuid, bool>,
                       bindings: map<Place, Binding>, active: bool, joined: seq<Uuid>, userOf: map<Uuid, Uuid>,
                       emails: map<Uuid, string>, suspended: set<Uuid>, invitations: map<Uuid, Invitation>)

  /** Who asks, and whether the session carries the scope to manage owners. */
  datatype Acting = Acting(member: Uuid, user: Uuid, owners: bool)

  /** How long invitations live, ordinary ones and those to become an owner. */
  datatype Lifetimes = Lifetimes(ordinary: int, owner: int)

  datatype TeamError =
    | MembershipNotFound | MembershipInactive | InvalidTransition | LastOwnerRequired | InsufficientScope
    | AuthorizationEscalation | ValidationError | RoleNotFound | RoleInactive | StoreNotFound | StoreInactive
    | BindingNotFound | InvitationNotFound | InvitationAccepted | InvitationRevoked | InvitationExpired
    | InvitationPending | EmailMismatch | AuthenticationRequired | UserBlocked | MembershipConflict | DependencyError

  type Outcome = Result<Team, TeamError>

  const MAX_ASSIGNMENTS: nat := 50

  // ----- the organization of Owners -----

  function OrgRoles(roles: map<Uuid, Role>): map<Uuid, O.Role> {
    map r | r in roles :: O.Role(roles[r].ownerKey, roles[r].system, roles[r].active)
  }

  function OrgBindings(bindings: map<Place, Binding>): (s: set<(Uuid, Uuid)>)
    ensures forall m: Uuid, r: Uuid :: (m, r) in s <==> Place(m, r, None) in bindings
  {
    set p | p in bindings && p.store.None? :: (p.member, p.role)
  }

  function Org(t: Team): O.Db {
    O.Db(t.status, OrgRoles(t.roles), OrgBindings(t.bindings))
  }

  // ----- bindings in force -----

  predicate Live(b: Binding, now: int) {
    b.expires.None? || b.expires.value > now
  }

  predicate OwnerRole(roles: map<Uuid, Role>, r: Uuid) {
    r in roles && roles[r].ownerKey && roles[r].system
  }

  predicate BoundAt(t: Team, p: Place, now: int) {
    p in t.bindings && Live(t.bindings[p], now)
  }

  predicate OwnerBinding(t: Team, p: Place, m: Uuid, now: int) {
    p.member == m && p.store.None? && OwnerRole(t.roles, p.role) && t.roles[p.role].active && BoundAt(t, p, now)
  }

  predicate OwnerAt(t: Team, m: Uuid, now: int) {
    exists p :: p in t.bindings && OwnerBinding(t, p, m, now)
  }

  /** The locking count of active owners, by the database's clock. */
  function OwnersAt(t: Team, now: int): set<Uuid> {
    set m | m in t.status && t.status[m] == O.ACTIVE && OwnerAt(t, m, now)
  }

  /** The scopes a member may pass on: those of the active roles bound to them for the
      whole organization. */
  predicate MayGrant(t: Team, m: Uuid, scope: string, now: int) {
    && m in t.status && t.status[m] == O.ACTIVE
    && exists p :: p in t.bindings && GrantingBinding(t, p, m, scope, now)
  }

  predicate GrantingBinding(t: Team, p: Place, m: Uuid, scope: string, now: int) {
    && p.member == m && p.store.None? && BoundAt(t, p, now)
    && p.role in t.roles && t.roles[p.role].active && scope in t.roles[p.role].scopes
  }

  predicate MayGrantAll(t: Team, m: Uuid, scopes: set<string>, now: int) {
    forall s :: s in scopes ==> MayGrant(t, m, s, now)
  }

  // ----- status and bindings -----

  /** Why a member's status may not change. */
  function StatusError(t: Team, actor: Acting, clock: Clock, m: Uuid, to: O.Status): Option<TeamError>
    requires m in t.status
  {
    if !O.ValidTransition(t.status[m], to) then Some(InvalidTransition)
    else if OwnerAt(t, m, clock.now) && !actor.owners then Some(InsufficientScope)
    else if OwnerAt(t, m, clock.now) && t.status[m] == O.ACTIVE && |OwnersAt(t, clock.dbNow)| <= 1
    then Some(LastOwnerRequired)
    else None
  }

  function UpdateStatus(t: Team, actor: Acting, clock: Clock, m: Uuid, to: O.Status): Outcome {
    if m !in t.status then Err(MembershipNotFound)
    else if t.status[m] == to then Ok(t)
    else
      match StatusError(t, actor, clock, m, to)
      case Some(e) => Err(e)
      case None => Ok(t.(status := t.status[m := to]))
  }

  /** The member's binding is named by its place. */
  function DeleteBinding(t: Team, actor: Acting, clock: Clock, p: Place): Outcome {
    if p.member !in t.status then Err(MembershipNotFound)
    else if p !in t.bindings || p.role !in t.roles then Err(BindingNotFound)
    else if OwnerRole(t.roles, p.role) && !actor.owners then Err(InsufficientScope)
    else if OwnerRole(t.roles, p.role) && t.status[p.member] == O.ACTIVE && t.roles[p.role].active
            && Live(t.bindings[p], clock.now) && |OwnersAt(t, clock.dbNow)| <= 1
    then Err(LastOwnerRequired)
    else Ok(t.(bindings := t.bindings - {p}))
  }

  /** What the request and the role must satisfy before the store is looked up. */
  function BindingError(t: Team, actor: Acting, p: Place, expires: Option<int>): Option<TeamError> {
    if p.member !in t.status then Some(MembershipNotFound)
    else if t.status[p.member] != O.ACTIVE then Some(MembershipInactive)
    else if p.role !in t.roles then Some(RoleNotFound)
    else if !t.roles[p.role].active then Some(RoleInactive)
    else if OwnerRole(t.roles, p.role) && !actor.owners then Some(InsufficientScope)
    else if OwnerRole(t.roles, p.role) && expires.Some? then Some(ValidationError)
    else if t.roles[p.role].storeScoped != p.store.Some? then Some(ValidationError)
    else if p.store.Some? && p.store.value !in t.stores then Some(StoreNotFound)
    else None
  }

  /** A binding that is there with the same expiration is left; with another, rewritten. */
  function CreateBinding(t: Team, actor: Acting, clock: Clock, p: Place, expires: Option<int>): Outcome {
    if expires.Some? && expires.value <= clock.now then Err(ValidationError)
    else if BindingError(t, actor, p, expires).Some? then Err(BindingError(t, actor, p, expires).value)
    else if !MayGrantAll(t, actor.member, t.roles[p.role].scopes, clock.dbNow) then Err(AuthorizationEscalation)
    else if p in t.bindings && t.bindings[p].expires == expires then Ok(t)
    else
      var created := if p in t.bindings then t.bindings[p].created else clock.dbNow;
      if expires.Some? && expires.value <= created then Err(DependencyError)
      else Ok(t.(bindings := t.bindings[p := Binding(created, expires)]))
  }

  // ----- invitations -----

  function StateError(i: Invitation, now: int, resend: bool): Option<TeamError> {
    match i.status
    case ACCEPTED => Some(InvitationAccepted)
    case REVOKED => Some(InvitationRevoked)
    case EXPIRED => Some(InvitationExpired)
    case PENDING => if now >= i.expires && !resend then Some(InvitationExpired) else None
  }

  /** Stale pending invitations of the address are marked before a new one is made. */
  function ExpireStale(invitations: map<Uuid, Invitation>, email: string, dbNow: int): map<Uuid, Invitation> {
    map i | i in invitations ::
      if invitations[i].email == email && invitations[i].status == PENDING && invitations[i].expires <= dbNow
      then invitations[i].(status := EXPIRED) else invitations[i]
  }

  /** The unique index: one pending invitation per address. */
  predicate PendingFor(invitations: map<Uuid, Invitation>, email: string) {
    exists i :: i in invitations && invitations[i].email == email && invitations[i].status == PENDING
  }

  /** The checks on one assignment of an invitation, in order. */
  function AssignmentError(t: Team, actor: Acting, dbNow: int, a: Assignment): Option<TeamError> {
    if a.role !in t.roles then Some(RoleNotFound)
    else if !t.roles[a.role].active then Some(RoleInactive)
    else if !MayGrantAll(t, actor.member, t.roles[a.role].scopes, dbNow) then Some(InsufficientScope)
    else if OwnerRole(t.roles, a.role) && !actor.owners then Some(InsufficientScope)
    else if t.roles[a.role].storeScoped != a.store.Some? then Some(ValidationError)
    else if a.store.Some? && a.store.value !in t.stores then Some(StoreNotFound)
    else if a.store.Some? && !t.stores[a.store.value] then Some(StoreInactive)
    else None
  }

  /** The assignments from position `i` on; an owner role changes the lifetime. */
  function CheckAssignments(t: Team, actor: Acting, dbNow: int, inputs: seq<Assignment>, i: nat, ttl: int,
                            ttls: Lifetimes)
      : Result<int, TeamError>
    requires i <= |inputs|
    decreases |inputs| - i
  {
    if i == |inputs| then Ok(ttl)
    else if inputs[i] in inputs[..i] then Err(ValidationError)
    else
      match AssignmentError(t, actor, dbNow, inputs[i])
      case Some(e) => Err(e)
      case None =>
        var next := if OwnerRole(t.roles, inputs[i].role) then ttls.owner else ttl;
        CheckAssignments(t, actor, dbNow, inputs, i + 1, next, ttls)
  }

  predicate ValidInviter(t: Team, actor: Acting) {
    && actor.member in t.status && t.status[actor.member] == O.ACTIVE
    && actor.member in t.userOf && t.userOf[actor.member] == actor.user
  }

  /** The trigger on invited owner roles: the inviter must hold that role, actively. */
  predicate OwnersInvited(t: Team, actor: Acting, dbNow: int, granted: set<Assignment>) {
    forall a :: a in granted && OwnerRole(t.roles, a.role) ==>
      && actor.member in t.status && t.status[actor.member] == O.ACTIVE
      && BoundAt(t, Place(actor.member, a.role, None), dbNow)
  }

  function Invite(t: Team, actor: Acting, clock: Clock, first: NewToken, email: string, inputs: seq<Assignment>,
                  ttls: Lifetimes): Outcome
  {
    if |inputs| == 0 || |inputs| > MAX_ASSIGNMENTS then Err(ValidationError)
    else if !ValidInviter(t, actor) then Err(InsufficientScope)
    else
      match CheckAssignments(t, actor, clock.dbNow, inputs, 0, ttls.ordinary, ttls)
      case Err(e) => Err(e)
      case Ok(ttl) =>
        var swept := ExpireStale(t.invitations, email, clock.dbNow);
        var granted := set a | a in inputs;
        if PendingFor(swept, email) then Err(InvitationPending)
        else if first.id in swept || clock.now + ttl <= clock.dbNow then Err(DependencyError)
        else if !OwnersInvited(t, actor, clock.dbNow, granted) then Err(InsufficientScope)
        else
          var row := Invitation(PENDING, email, first.secret, clock.dbNow, clock.now + ttl, granted);
          Ok(t.(invitations := swept[first.id := row]))
  }

  /** A role with the owner's key among the assignments needs the scope to manage owners. */
  predicate NamesOwnerKey(roles: map<Uuid, Role>, granted: set<Assignment>) {
    exists a :: a in granted && a.role in roles && roles[a.role].ownerKey
  }

  function Resend(t: Team, actor: Acting, clock: Clock, id: Uuid, secret: seq<int>, ttls: Lifetimes): Outcome {
    if id !in t.invitations then Err(InvitationNotFound)
    else
      var i := t.invitations[id];
      if StateError(i, clock.now, true).Some? then Err(StateError(i, clock.now, true).value)
      else
        var owner := NamesOwnerKey(t.roles, i.granted);
        if owner && !actor.owners then Err(InsufficientScope)
        else
          var expires := clock.now + if owner then ttls.owner else ttls.ordinary;
          if expires <= i.created then Err(DependencyError)
          else Ok(t.(invitations := t.invitations[id := i.(secret := secret, expires := expires)]))
  }

  function Revoke(t: Team, clock: Clock, id: Uuid): Outcome {
    if id !in t.invitations then Err(InvitationNotFound)
    else
      var i := t.invitations[id];
      if StateError(i, clock.now, false).Some? then Err(StateError(i, clock.now, false).value)
      else Ok(t.(invitations := t.invitations[id := i.(status := REVOKED)]))
  }

  // ----- acceptance -----

  /** The user's newest membership. */
  function Latest(joined: seq<Uuid>, userOf: map<Uuid, Uuid>, user: Uuid): (r: Option<Uuid>)
    ensures r.Some? ==> r.value in joined && r.value in userOf && userOf[r.value] == user
    ensures r.None? ==> forall i :: 0 <= i < |joined| ==> joined[i] !in userOf || userOf[joined[i]] != user
  {
    if joined == [] then None
    else
      var last := joined[|joined| - 1];
      if last in userOf && userOf[last] == user then Some(last) else Latest(joined[..|joined| - 1], userOf, user)
  }

  /** The unique index: one membership per user that is not removed. */
  predicate HasCurrent(t: Team, user: Uuid) {
    exists m :: m in t.status && t.status[m] != O.REMOVED && m in t.userOf && t.userOf[m] == user
  }

  function WithoutMember(bindings: map<Place, Binding>, m: Uuid): map<Place, Binding> {
    map p | p in bindings && p.member != m :: bindings[p]
  }

  function PlacesOf(m: Uuid, granted: set<Assignment>): set<Place> {
    set a | a in granted :: Place(m, a.role, a.store)
  }

  function NewBindings(m: Uuid, granted: set<Assignment>, dbNow: int): map<Place, Binding> {
    map p | p in PlacesOf(m, granted) :: Binding(dbNow, None)
  }

  /** The invitation's assignments are copied; a binding that is already there is kept. */
  function Copied(bindings: map<Place, Binding>, m: Uuid, granted: set<Assignment>, dbNow: int): map<Place, Binding> {
    NewBindings(m, granted, dbNow) + bindings
  }

  /** The user's membership is created, reactivated or kept, and gets the assignments. */
  function Join(t: Team, user: Uuid, granted: set<Assignment>, member: Uuid, dbNow: int): Outcome {
    match Latest(t.joined, t.userOf, user)
    case Some(m) =>
      if m in t.status && t.status[m] != O.REMOVED then Ok(Admit(t, m, granted, dbNow))
      else AddMember(t, user, granted, member, dbNow)
    case None => AddMember(t, user, granted, member, dbNow)
  }

  /** A suspended member comes back with the invitation's bindings only. */
  function Admit(t: Team, m: Uuid, granted: set<Assignment>, dbNow: int): Team
    requires m in t.status
  {
    if t.status[m] == O.SUSPENDED then
      t.(status := t.status[m := O.ACTIVE], bindings := Copied(WithoutMember(t.bindings, m), m, granted, dbNow))
    else t.(bindings := Copied(t.bindings, m, granted, dbNow))
  }

  function AddMember(t: Team, user: Uuid, granted: set<Assignment>, member: Uuid, dbNow: int): Outcome {
    if HasCurrent(t, user) then Err(MembershipConflict)
    else if member in t.status then Err(DependencyError)
    else Ok(t.(status := t.status[member := O.ACTIVE], bindings := Copied(t.bindings, member, granted, dbNow),
               joined := t.joined + [member], userOf := t.userOf[member := user]))
  }

  predicate EmailKnown(emails: map<Uuid, string>, email: string) {
    exists u :: u in emails && emails[u] == email
  }

  /** Who accepts: the signed-in user, or a new one with the invited address. */
  function Acceptor(t: Team, user: Uuid, anonymous: bool, email: string): Result<Team, TeamError> {
    if anonymous then
      if EmailKnown(t.emails, email) then Err(AuthenticationRequired)
      else if user in t.emails then Err(DependencyError)
      else Ok(t.(emails := t.emails[user := email]))
    else if user !in t.emails || t.emails[user] != email then Err(EmailMismatch)
    else Ok(t)
  }

  function Accept(t: Team, clock: Clock, id: Uuid, secret: seq<int>, user: Uuid, anonymous: bool, member: Uuid)
      : Outcome
  {
    if id !in t.invitations || t.invitations[id].secret != secret then Err(InvitationNotFound)
    else
      var i := t.invitations[id];
      if StateError(i, clock.now, false).Some? then Err(StateError(i, clock.now, false).value)
      else if !t.active then Err(InvitationNotFound)
      else
        match Acceptor(t, user, anonymous, i.email)
        case Err(e) => Err(e)
        case Ok(known) =>
          if !anonymous && user in t.suspended then Err(UserBlocked)
          else
            match Join(known, user, i.granted, member, clock.dbNow)
            case Err(e) => Err(e)
            case Ok(after) =>
              if i.expires <= clock.dbNow then Err(InvitationNotFound)
              else Ok(after.(invitations := t.invitations[id := i.(status := ACCEPTED)]))
  }

  // ----- commands -----

  /** The last four stand for what other services do to users, roles and stores. */
  datatype Op =
    | SetStatus(actor: Acting, clock: Clock, m: Uuid, to: O.Status)
    | Unbind(actor: Acting, clock: Clock, place: Place)
    | Bind(actor: Acting, clock: Clock, place: Place, until: Option<int>)
    | SendInvitation(actor: Acting, clock: Clock, first: NewToken, email: string, inputs: seq<Assignment>,
                     ttls: Lifetimes)
    | ResendInvitation(actor: Acting, clock: Clock, id: Uuid, secret: seq<int>, ttls: Lifetimes)
    | RevokeInvitation(clock: Clock, id: Uuid)
    | AcceptInvitation(clock: Clock, id: Uuid, secret: seq<int>, user: Uuid, anonymous: bool, member: Uuid)
    | SetUserSuspended(user: Uuid, blocked: bool)
    | AddRole(role: Uuid, storeScoped: bool, scopes: set<string>)
    | EditRole(role: Uuid, active: bool, scopes: set<string>)
    | SetStore(store: Uuid, open: bool)

  function Perform(t: Team, op: Op): Outcome {
    match op
    case SetStatus(actor, clock, m, to) => UpdateStatus(t, actor, clock, m, to)
    case Unbind(actor, clock, place) => DeleteBinding(t, actor, clock, place)
    case Bind(actor, clock, place, until) => CreateBinding(t, actor, clock, place, until)
    case SendInvitation(actor, clock, first, email, inputs, ttls) => Invite(t, actor, clock, first, email, inputs, ttls)
    case ResendInvitation(actor, clock, id, secret, ttls) => Resend(t, actor, clock, id, secret, ttls)
    case RevokeInvitation(clock, id) => Revoke(t, clock, id)
    case AcceptInvitation(clock, id, secret, user, anonymous, member) =>
      Accept(t, clock, id, secret, user, anonymous, member)
    case SetUserSuspended(user, blocked) =>
      Ok(t.(suspended := if blocked then t.suspended + {user} else t.suspended - {user}))
    case AddRole(role, storeScoped, scopes) =>
      if role in t.roles then Err(DependencyError)
      else Ok(t.(roles := t.roles[role := Role(false, false, true, storeScoped, scopes)]))
    case EditRole(role, active, scopes) =>
      if role !in t.roles || t.roles[role].system then Err(RoleNotFound)
      else Ok(t.(roles := t.roles[role := t.roles[role].(active := active, scopes := scopes)]))
    case SetStore(store, open) => Ok(t.(stores := t.stores[store := open]))
  }

  function Step(t: Team, op: Op): Team {
    var r := Perform(t, op);
    if r.Ok? then r.value else t
  }

  function Exec(t: Team, ops: seq<Op>): Team {
    if ops == [] then t else Step(Exec(t, ops[..|ops| - 1]), ops[|ops| - 1])
  }

  // ----- invariant -----

  predicate BothPending(a: Invitation, b: Invitation) {
    a.status == PENDING && b.status == PENDING && a.email == b.email
  }

  predicate OnePending(t: Team) {
    forall a, b :: a in t.invitations && b in t.invitations && BothPending(t.invitations[a], t.invitations[b]) ==>
      a == b
  }

  ghost predicate MembersListed(t: Team) {
    && (forall m :: m in t.joined <==> m in t.status)
    && (forall m :: m in t.joined <==> m in t.userOf)
    && (forall i, j :: 0 <= i < j < |t.joined| ==> t.joined[i] != t.joined[j])
  }

  /** Only a user's newest membership can still be in force. */
  ghost predicate OnlyNewestStands(t: Team)
    requires MembersListed(t)
  {
    forall i, j :: 0 <= i < j < |t.joined| && t.userOf[t.joined[i]] == t.userOf[t.joined[j]] ==>
      t.status[t.joined[i]] == O.REMOVED
  }

  ghost predicate PeopleOk(t: Team) {
    MembersListed(t) && OnlyNewestStands(t)
  }

  predicate RoleOk(r: Role) {
    r.ownerKey ==> r.system && r.active && !r.storeScoped
  }

  /** A role that fits an assignment with or without a store. */
  predicate Fits(roles: map<Uuid, Role>, role: Uuid, store: Option<Uuid>) {
    role in roles && roles[role].storeScoped == store.Some?
  }

  /** A binding has its member and a role that fits, and one to the owner role never expires. */
  predicate BindingOk(t: Team, p: Place)
    requires p in t.bindings
  {
    && p.member in t.status && Fits(t.roles, p.role, p.store)
    && (t.roles[p.role].ownerKey ==> t.bindings[p].expires.None?)
  }

  predicate RightsOk(t: Team) {
    && (forall r :: r in t.roles ==> RoleOk(t.roles[r]))
    && (forall p :: p in t.bindings ==> BindingOk(t, p))
  }

  /** The assignments name roles that fit. */
  predicate AllFit(roles: map<Uuid, Role>, granted: set<Assignment>) {
    forall a :: a in granted ==> Fits(roles, a.role, a.store)
  }

  predicate InvitationsOk(t: Team) {
    OnePending(t) && forall i :: i in t.invitations ==> AllFit(t.roles, t.invitations[i].granted)
  }

  ghost predicate Inv(t: Team) {
    PeopleOk(t) && RightsOk(t) && InvitationsOk(t)
  }

  // ----- the members -----

  lemma LatestStands(t: Team, user: Uuid, m: Uuid)
    requires PeopleOk(t) && m in t.status && t.status[m] != O.REMOVED && t.userOf[m] == user
    ensures Latest(t.joined, t.userOf, user) == Some(m)
  {
    var i :| 0 <= i < |t.joined| && t.joined[i] == m;
    forall j | i < j < |t.joined| ensures t.joined[j] in t.userOf && t.userOf[t.joined[j]] != user {
      assert t.joined[j] in t.joined;
    }
    LatestFrom(t.joined, t.userOf, user, i, |t.joined|);
    assert t.joined[..|t.joined|] == t.joined;
  }

  lemma {:induction false} LatestFrom(joined: seq<Uuid>, userOf: map<Uuid, Uuid>, user: Uuid, i: nat, n: nat)
    requires i < n <= |joined| && joined[i] in userOf && userOf[joined[i]] == user
    requires forall j :: i < j < |joined| ==> joined[j] in userOf && userOf[joined[j]] != user
    ensures Latest(joined[..n], userOf, user) == Some(joined[i])
    decreases n
  {
    var prefix := joined[..n];
    assert prefix[n - 1] == joined[n - 1] && prefix[..n - 1] == joined[..n - 1];
    if i < n - 1 {
      LatestFrom(joined, userOf, user, i, n - 1);
    }
  }

  /** In a good state the unique index on current memberships never refuses: when the newest
      membership is missing or removed, the user has no other in force. */
  lemma NoMembershipConflict(t: Team, user: Uuid, granted: set<Assignment>, member: Uuid, dbNow: int)
    requires Inv(t)
    ensures Join(t, user, granted, member, dbNow) != Err(MembershipConflict)
  {
    if HasCurrent(t, user) {
      var m :| m in t.status && t.status[m] != O.REMOVED && m in t.userOf && t.userOf[m] == user;
      LatestStands(t, user, m);
    }
  }

  /** A step that leaves the list of members alone and removes but never restores. */
  lemma PeopleKept(t: Team, after: Team)
    requires PeopleOk(t) && after.joined == t.joined && after.userOf == t.userOf
    requires after.status.Keys == t.status.Keys
    requires forall m :: m in t.status && t.status[m] == O.REMOVED ==> after.status[m] == O.REMOVED
    ensures PeopleOk(after)
  {
  }

  lemma AppendListed(joined: seq<Uuid>, member: Uuid, m: Uuid)
    ensures m in joined + [member] <==> m in joined || m == member
  {
    var longer := joined + [member];
    assert longer[|joined|] == member;
    if m in joined {
      var i :| 0 <= i < |joined| && joined[i] == m;
      assert longer[i] == m;
    }
  }

  lemma PeopleAppended(t: Team, user: Uuid, member: Uuid, after: Team)
    requires PeopleOk(t) && member !in t.status && !HasCurrent(t, user)
    requires after.status == t.status[member := O.ACTIVE]
    requires after.joined == t.joined + [member] && after.userOf == t.userOf[member := user]
    ensures PeopleOk(after)
  {
    forall m ensures m in after.joined <==> m in t.joined || m == member { AppendListed(t.joined, member, m); }
    forall i, j | 0 <= i < j < |after.joined| && after.userOf[after.joined[i]] == after.userOf[after.joined[j]]
      ensures after.status[after.joined[i]] == O.REMOVED
    {
      var m := t.joined[i];
      assert after.joined[i] == m && m in t.joined && m != member;
      if j < |t.joined| {
        assert after.joined[j] == t.joined[j] && t.joined[j] in t.joined;
      }
    }
  }

  // ----- copying the assignments -----

  /** Where each binding comes from after copying. */
  lemma CopiedAt(bindings: map<Place, Binding>, m: Uuid, granted: set<Assignment>, dbNow: int, p: Place)
    ensures var c := Copied(bindings, m, granted, dbNow);
      && (p in c <==> p in bindings || (p.member == m && Assignment(p.role, p.store) in granted))
      && (p in c ==> c[p] == if p in bindings then bindings[p] else Binding(dbNow, None))
  {
    assert p in PlacesOf(m, granted) <==> p.member == m && Assignment(p.role, p.store) in granted by {
      if p.member == m && Assignment(p.role, p.store) in granted {
        assert p == Place(m, Assignment(p.role, p.store).role, Assignment(p.role, p.store).store);
      }
    }
  }

  lemma CopiedRightsOk(t: Team, m: Uuid, granted: set<Assignment>, dbNow: int, after: Team)
    requires RightsOk(t) && m in after.status && AllFit(t.roles, granted)
    requires after.roles == t.roles && (forall n :: n in t.status ==> n in after.status)
    requires after.bindings == Copied(t.bindings, m, granted, dbNow)
          || after.bindings == Copied(WithoutMember(t.bindings, m), m, granted, dbNow)
    ensures RightsOk(after)
  {
    forall p | p in after.bindings ensures BindingOk(after, p) {
      CopiedAt(t.bindings, m, granted, dbNow, p);
      CopiedAt(WithoutMember(t.bindings, m), m, granted, dbNow, p);
      if p in t.bindings { assert BindingOk(t, p); }
    }
  }

  // ----- what an acceptance does -----

  predicate Stands(t: Team, m: Uuid) {
    m in t.status && t.status[m] != O.REMOVED
  }

  /** The member who joined or was found by an acceptance. */
  function Joiner(t: Team, user: Uuid, member: Uuid): Uuid {
    match Latest(t.joined, t.userOf, user)
    case Some(m) => if m in t.status && t.status[m] != O.REMOVED then m else member
    case None => member
  }

  lemma JoinIs(t: Team, user: Uuid, granted: set<Assignment>, member: Uuid, dbNow: int)
    requires Join(t, user, granted, member, dbNow).Ok?
    ensures var m := Joiner(t, user, member);
      if Stands(t, m) then Join(t, user, granted, member, dbNow) == Ok(Admit(t, m, granted, dbNow))
      else m == member && m !in t.status
           && Join(t, user, granted, member, dbNow) == AddMember(t, user, granted, m, dbNow)
  {
  }

  /** Joining leaves the invitations, the roles and what was known of addresses alone. */
  lemma JoinFrame(t: Team, user: Uuid, granted: set<Assignment>, member: Uuid, dbNow: int)
    requires Join(t, user, granted, member, dbNow).Ok?
    ensures var u := Join(t, user, granted, member, dbNow).value;
      u == t.(status := u.status, bindings := u.bindings, joined := u.joined, userOf := u.userOf)
  {
  }

  /** An acceptance knows the acceptor, lets them join and marks the invitation. */
  lemma AcceptIs(t: Team, clock: Clock, id: Uuid, secret: seq<int>, user: Uuid, anonymous: bool, member: Uuid)
    returns (known: Team, joined: Team)
    requires Accept(t, clock, id, secret, user, anonymous, member).Ok?
    ensures id in t.invitations && t.invitations[id].status == PENDING && t.invitations[id].secret == secret
    ensures clock.now < t.invitations[id].expires && clock.dbNow < t.invitations[id].expires
    ensures Acceptor(t, user, anonymous, t.invitations[id].email) == Ok(known) && known == t.(emails := known.emails)
    ensures Join(known, user, t.invitations[id].granted, member, clock.dbNow) == Ok(joined)
    ensures Joiner(known, user, member) == Joiner(t, user, member)
    ensures Accept(t, clock, id, secret, user, anonymous, member).value
         == joined.(invitations := t.invitations[id := t.invitations[id].(status := ACCEPTED)])
  {
    known := Acceptor(t, user, anonymous, t.invitations[id].email).value;
    joined := Join(known, user, t.invitations[id].granted, member, clock.dbNow).value;
  }

  // ----- every step keeps the invariant -----

  lemma AdmitKeepsInv(t: Team, m: Uuid, granted: set<Assignment>, dbNow: int)
    requires Inv(t) && m in t.status && t.status[m] != O.REMOVED && AllFit(t.roles, granted)
    ensures Inv(Admit(t, m, granted, dbNow))
  {
    var after := Admit(t, m, granted, dbNow);
    assert PeopleOk(after) by { PeopleKept(t, after); }
    assert RightsOk(after) by { CopiedRightsOk(t, m, granted, dbNow, after); }
    assert InvitationsOk(after) by { InvitationsKeptOk(t, after); }
  }

  lemma AddMemberKeepsInv(t: Team, user: Uuid, granted: set<Assignment>, member: Uuid, dbNow: int)
    requires Inv(t) && AddMember(t, user, granted, member, dbNow).Ok? && AllFit(t.roles, granted)
    ensures Inv(AddMember(t, user, granted, member, dbNow).value)
  {
    var after := AddMember(t, user, granted, member, dbNow).value;
    assert PeopleOk(after) by { PeopleAppended(t, user, member, after); }
    assert RightsOk(after) by { CopiedRightsOk(t, member, granted, dbNow, after); }
    assert InvitationsOk(after) by { InvitationsKeptOk(t, after); }
  }

  lemma JoinKeepsInv(t: Team, user: Uuid, granted: set<Assignment>, member: Uuid, dbNow: int)
    requires Inv(t) && Join(t, user, granted, member, dbNow).Ok? && AllFit(t.roles, granted)
    ensures Inv(Join(t, user, granted, member, dbNow).value)
  {
    JoinIs(t, user, granted, member, dbNow);
    var m := Joiner(t, user, member);
    if Stands(t, m) {
      AdmitKeepsInv(t, m, granted, dbNow);
    } else {
      AddMemberKeepsInv(t, user, granted, m, dbNow);
    }
  }

  /** Invitations that only leave PENDING stay one per address. */
  lemma InvitationsKeptOk(t: Team, after: Team)
    requires InvitationsOk(t) && after.roles == t.roles && after.invitations.Keys == t.invitations.Keys
    requires forall i :: i in t.invitations ==>
      && after.invitations[i].email == t.invitations[i].email
      && after.invitations[i].granted == t.invitations[i].granted
      && (after.invitations[i].status == PENDING ==> t.invitations[i].status == PENDING)
    ensures InvitationsOk(after)
  {
    forall a, b | a in after.invitations && b in after.invitations
        && BothPending(after.invitations[a], after.invitations[b])
      ensures a == b
    {
      assert BothPending(t.invitations[a], t.invitations[b]);
    }
    forall i | i in after.invitations ensures AllFit(after.roles, after.invitations[i].granted) {
      assert AllFit(t.roles, t.invitations[i].granted);
    }
  }

  lemma AcceptKeepsInv(t: Team, clock: Clock, id: Uuid, secret: seq<int>, user: Uuid, anonymous: bool, member: Uuid)
    requires Inv(t) && Accept(t, clock, id, secret, user, anonymous, member).Ok?
    ensures Inv(Accept(t, clock, id, secret, user, anonymous, member).value)
  {
    var known, joined := AcceptIs(t, clock, id, secret, user, anonymous, member);
    var granted := t.invitations[id].granted;
    assert AllFit(t.roles, granted);
    assert Inv(known);
    JoinKeepsInv(known, user, granted, member, clock.dbNow);
    JoinFrame(known, user, granted, member, clock.dbNow);
    var after := joined.(invitations := t.invitations[id := t.invitations[id].(status := ACCEPTED)]);
    AcceptedKeepsInv(joined, id, after);
  }

  lemma AcceptedKeepsInv(t: Team, id: Uuid, after: Team)
    requires Inv(t) && id in t.invitations
    requires after == t.(invitations := t.invitations[id := t.invitations[id].(status := ACCEPTED)])
    ensures Inv(after)
  {
    assert InvitationsOk(after) by { InvitationsKeptOk(t, after); }
    assert PeopleOk(after) by { PeopleKept(t, after); }
    assert RightsOk(after) by { RightsKept(t, after); }
  }

  lemma RightsKept(t: Team, after: Team)
    requires RightsOk(t) && after.roles == t.roles && after.bindings == t.bindings
    requires forall m :: m in t.status ==> m in after.status
    ensures RightsOk(after)
  {
    forall p | p in after.bindings ensures BindingOk(after, p) { assert BindingOk(t, p); }
  }

  /** Assignments that pass the checks name roles that fit. */
  lemma {:induction false} CheckedAssignmentsFit(t: Team, actor: Acting, dbNow: int, inputs: seq<Assignment>, i: nat,
                                                 ttl: int, ttls: Lifetimes)
    requires i <= |inputs| && CheckAssignments(t, actor, dbNow, inputs, i, ttl, ttls).Ok?
    ensures forall k :: i <= k < |inputs| ==> Fits(t.roles, inputs[k].role, inputs[k].store)
    decreases |inputs| - i
  {
    if i < |inputs| {
      var next := if OwnerRole(t.roles, inputs[i].role) then ttls.owner else ttl;
      CheckedAssignmentsFit(t, actor, dbNow, inputs, i + 1, next, ttls);
    }
  }

  lemma InviteKeepsInv(t: Team, actor: Acting, clock: Clock, first: NewToken, email: string, inputs: seq<Assignment>,
                       ttls: Lifetimes)
    requires Inv(t) && Invite(t, actor, clock, first, email, inputs, ttls).Ok?
    ensures Inv(Invite(t, actor, clock, first, email, inputs, ttls).value)
  {
    var after := Invite(t, actor, clock, first, email, inputs, ttls).value;
    var swept := ExpireStale(t.invitations, email, clock.dbNow);
    InvitationsKeptOk(t, t.(invitations := swept));
    CheckedAssignmentsFit(t, actor, clock.dbNow, inputs, 0, ttls.ordinary, ttls);
    assert AllFit(t.roles, after.invitations[first.id].granted);
    AddedInvitationOk(t.(invitations := swept), first.id, after);
    assert PeopleOk(after) by { PeopleKept(t, after); }
    assert RightsOk(after) by { RightsKept(t, after); }
  }

  lemma AddedInvitationOk(t: Team, id: Uuid, after: Team)
    requires InvitationsOk(t) && after.roles == t.roles && id !in t.invitations && id in after.invitations
    requires after.invitations == t.invitations[id := after.invitations[id]]
    requires AllFit(t.roles, after.invitations[id].granted) && !PendingFor(t.invitations, after.invitations[id].email)
    ensures InvitationsOk(after)
  {
    forall a, b | a in after.invitations && b in after.invitations
        && BothPending(after.invitations[a], after.invitations[b])
      ensures a == b
    {
      if a in t.invitations && b in t.invitations { assert BothPending(t.invitations[a], t.invitations[b]); }
    }
    forall i | i in after.invitations ensures AllFit(after.roles, after.invitations[i].granted) {
      if i in t.invitations { assert AllFit(t.roles, t.invitations[i].granted); }
    }
  }

  lemma UpdateStatusKeepsInv(t: Team, actor: Acting, clock: Clock, m: Uuid, to: O.Status)
    requires Inv(t) && UpdateStatus(t, actor, clock, m, to).Ok?
    ensures Inv(UpdateStatus(t, actor, clock, m, to).value)
  {
    var after := UpdateStatus(t, actor, clock, m, to).value;
    assert after == t || (m in t.status && after == t.(status := t.status[m := to]) && t.status[m] != O.REMOVED);
    assert PeopleOk(after) by { PeopleKept(t, after); }
    assert RightsOk(after) by { RightsKept(t, after); }
    assert InvitationsOk(after) by { InvitationsKeptOk(t, after); }
  }

  lemma BindingChangeKeepsInv(t: Team, after: Team)
    requires Inv(t) && after == t.(bindings := after.bindings) && RightsOk(after)
    ensures Inv(after)
  {
    assert PeopleOk(after) by { PeopleKept(t, after); }
    assert InvitationsOk(after) by { InvitationsKeptOk(t, after); }
  }

  lemma DeleteBindingKeepsInv(t: Team, actor: Acting, clock: Clock, p: Place)
    requires Inv(t) && DeleteBinding(t, actor, clock, p).Ok?
    ensures Inv(DeleteBinding(t, actor, clock, p).value)
  {
    var after := DeleteBinding(t, actor, clock, p).value;
    assert after == t.(bindings := t.bindings - {p});
    forall q | q in after.bindings ensures BindingOk(after, q) { assert BindingOk(t, q); }
    BindingChangeKeepsInv(t, after);
  }

  /** A binding that is created is the only one that changes. */
  lemma CreateBindingIs(t: Team, actor: Acting, clock: Clock, p: Place, expires: Option<int>)
    requires CreateBinding(t, actor, clock, p, expires).Ok?
    ensures var after := CreateBinding(t, actor, clock, p, expires).value;
      && p in after.bindings && after == t.(bindings := t.bindings[p := after.bindings[p]])
      && after.bindings[p].expires == expires && BindingError(t, actor, p, expires).None?
      && (p in t.bindings ==> after.bindings[p].created == t.bindings[p].created)
  {
    if p in t.bindings { assert t.bindings[p := t.bindings[p]] == t.bindings; }
  }

  lemma CreateBindingKeepsInv(t: Team, actor: Acting, clock: Clock, p: Place, expires: Option<int>)
    requires Inv(t) && CreateBinding(t, actor, clock, p, expires).Ok?
    ensures Inv(CreateBinding(t, actor, clock, p, expires).value)
  {
    var after := CreateBinding(t, actor, clock, p, expires).value;
    CreateBindingIs(t, actor, clock, p, expires);
    forall q | q in after.bindings ensures BindingOk(after, q) {
      if q == p { NewBindingOk(t, actor, p, after); } else { assert BindingOk(t, q); }
    }
    BindingChangeKeepsInv(t, after);
  }

  lemma NewBindingOk(t: Team, actor: Acting, p: Place, after: Team)
    requires p in after.bindings && after.status == t.status && after.roles == t.roles
    requires RightsOk(t) && BindingError(t, actor, p, after.bindings[p].expires).None?
    ensures BindingOk(after, p)
  {
    assert RoleOk(t.roles[p.role]);
  }

  lemma InvitationStepKeepsInv(t: Team, op: Op)
    requires Inv(t) && Perform(t, op).Ok? && (op.ResendInvitation? || op.RevokeInvitation?)
    ensures Inv(Step(t, op))
  {
    var after := Step(t, op);
    InvitationsKeptOk(t, after);
    assert PeopleOk(after) by { PeopleKept(t, after); }
    assert RightsOk(after) by { RightsKept(t, after); }
  }

  /** New roles, and edits that leave a role's kind alone, keep what fits. */
  lemma RolesGrowKeepsInv(t: Team, after: Team)
    requires Inv(t) && after == t.(roles := after.roles)
    requires forall r :: r in t.roles ==>
      r in after.roles && after.roles[r].storeScoped == t.roles[r].storeScoped
      && after.roles[r].ownerKey == t.roles[r].ownerKey
    requires forall r :: r in after.roles ==> RoleOk(after.roles[r])
    ensures Inv(after)
  {
    assert forall role, store :: Fits(t.roles, role, store) ==> Fits(after.roles, role, store);
    forall p | p in after.bindings ensures BindingOk(after, p) { assert BindingOk(t, p); }
    forall i | i in after.invitations ensures AllFit(after.roles, after.invitations[i].granted) {
      assert AllFit(t.roles, t.invitations[i].granted);
    }
    assert OnePending(after) by { assert OnePending(t); }
    assert PeopleOk(after) by { PeopleKept(t, after); }
  }

  lemma OtherStepKeepsInv(t: Team, op: Op)
    requires Inv(t) && Perform(t, op).Ok?
    requires op.SetUserSuspended? || op.AddRole? || op.EditRole? || op.SetStore?
    ensures Inv(Step(t, op))
  {
    var after := Step(t, op);
    if op.AddRole? || op.EditRole? {
      RolesGrowKeepsInv(t, after);
    } else {
      assert RightsOk(after) by { RightsKept(t, after); }
      assert InvitationsOk(after) by { InvitationsKeptOk(t, after); }
      assert PeopleOk(after) by { PeopleKept(t, after); }
    }
  }

  lemma StepKeepsInv(t: Team, op: Op)
    requires Inv(t)
    ensures Inv(Step(t, op))
  {
    if Perform(t, op).Ok? {
      match op
      case AcceptInvitation(clock, id, secret, user, anonymous, member) =>
        AcceptKeepsInv(t, clock, id, secret, user, anonymous, member);
      case SendInvitation(actor, clock, first, email, inputs, ttls) =>
        InviteKeepsInv(t, actor, clock, first, email, inputs, ttls);
      case SetStatus(actor, clock, m, to) => UpdateStatusKeepsInv(t, actor, clock, m, to);
      case Unbind(actor, clock, place) => DeleteBindingKeepsInv(t, actor, clock, place);
      case Bind(actor, clock, place, until) => CreateBindingKeepsInv(t, actor, clock, place, until);
      case ResendInvitation(_, _, _, _, _) => InvitationStepKeepsInv(t, op);
      case RevokeInvitation(_, _) => InvitationStepKeepsInv(t, op);
      case _ => OtherStepKeepsInv(t, op);
    }
  }

  predicate InForce(t: Team, m: Uuid) {
    m in t.status && t.status[m] != O.REMOVED && m in t.userOf
  }

  predicate SameUserInForce(t: Team, m: Uuid, n: Uuid) {
    InForce(t, m) && InForce(t, n) && t.userOf[m] == t.userOf[n]
  }

  /** Over every run a user has at most one membership in force, the newest, an address at
      most one pending invitation, and every binding a role it fits. */
  lemma {:induction false} EveryRunKeepsInv(t: Team, ops: seq<Op>)
    requires Inv(t)
    ensures Inv(Exec(t, ops))
    ensures forall m, n :: SameUserInForce(Exec(t, ops), m, n) ==> m == n
  {
    if ops != [] {
      EveryRunKeepsInv(t, ops[..|ops| - 1]);
      StepKeepsInv(Exec(t, ops[..|ops| - 1]), ops[|ops| - 1]);
    }
    var end := Exec(t, ops);
    forall m, n | SameUserInForce(end, m, n) ensures m == n {
      LatestStands(end, end.userOf[m], m);
      LatestStands(end, end.userOf[m], n);
    }
  }

  // ----- what acceptance gives, and how often -----

  predicate WasActive(t: Team, m: Uuid) {
    m in t.status && t.status[m] == O.ACTIVE
  }

  /** `m` ends active, with exactly the assignments if new or reactivated and with them in
      addition if already active; what was bound keeps its expiration; nobody else changes. */
  ghost predicate Admitted(before: Team, after: Team, m: Uuid, granted: set<Assignment>, dbNow: int) {
    && WasActive(after, m) && after.roles == before.roles
    && (forall p: Place :: p.member == m ==>
          (p in after.bindings <==>
             Assignment(p.role, p.store) in granted || (WasActive(before, m) && p in before.bindings)))
    && (forall p: Place :: p.member == m && p in after.bindings ==>
          after.bindings[p] ==
            if WasActive(before, m) && p in before.bindings then before.bindings[p] else Binding(dbNow, None))
    && (forall p: Place :: p.member != m ==> (p in after.bindings <==> p in before.bindings))
    && (forall p: Place :: p.member != m && p in before.bindings ==> after.bindings[p] == before.bindings[p])
    && (forall n :: n != m && n in before.status ==> n in after.status && after.status[n] == before.status[n])
  }

  lemma AdmissionOfExisting(t: Team, m: Uuid, granted: set<Assignment>, dbNow: int)
    requires m in t.status && t.status[m] != O.REMOVED
    ensures Admitted(t, Admit(t, m, granted, dbNow), m, granted, dbNow)
  {
    forall p { CopiedAt(t.bindings, m, granted, dbNow, p); }
    forall p { CopiedAt(WithoutMember(t.bindings, m), m, granted, dbNow, p); }
  }

  lemma AdmissionOfNew(t: Team, user: Uuid, granted: set<Assignment>, m: Uuid, dbNow: int)
    requires RightsOk(t) && AddMember(t, user, granted, m, dbNow).Ok?
    ensures Admitted(t, AddMember(t, user, granted, m, dbNow).value, m, granted, dbNow)
  {
    forall p { CopiedAt(t.bindings, m, granted, dbNow, p); }
    forall p | p in t.bindings ensures p.member != m { assert BindingOk(t, p); }
  }

  /** An acceptance admits the user's membership with the invitation's roles and nobody else. */
  lemma AcceptanceEffect(t: Team, clock: Clock, id: Uuid, secret: seq<int>, user: Uuid, anonymous: bool, member: Uuid)
    requires Inv(t) && Accept(t, clock, id, secret, user, anonymous, member).Ok?
    ensures Admitted(t, Accept(t, clock, id, secret, user, anonymous, member).value, Joiner(t, user, member),
                     t.invitations[id].granted, clock.dbNow)
  {
    var known, joined := AcceptIs(t, clock, id, secret, user, anonymous, member);
    var granted, m := t.invitations[id].granted, Joiner(t, user, member);
    JoinIs(known, user, granted, member, clock.dbNow);
    assert Admitted(known, joined, m, granted, clock.dbNow) by {
      if Stands(known, m) {
        AdmissionOfExisting(known, m, granted, clock.dbNow);
      } else {
        AdmissionOfNew(known, user, granted, m, clock.dbNow);
      }
    }
    AdmittedElsewhere(known, joined, t, Accept(t, clock, id, secret, user, anonymous, member).value, m, granted,
                      clock.dbNow);
  }

  /** Admission concerns status, roles and bindings only. */
  lemma AdmittedElsewhere(before: Team, after: Team, t: Team, u: Team, m: Uuid, granted: set<Assignment>, dbNow: int)
    requires Admitted(before, after, m, granted, dbNow)
    requires t.status == before.status && t.roles == before.roles && t.bindings == before.bindings
    requires u.status == after.status && u.roles == after.roles && u.bindings == after.bindings
    ensures Admitted(t, u, m, granted, dbNow)
  {
  }

  /** The binding gives its member the role's scopes. */
  predicate InEffect(t: Team, p: Place, now: int) {
    BoundAt(t, p, now) && p.role in t.roles && t.roles[p.role].active
  }

  /** After an acceptance the invited roles are in effect, now or at any later time, exactly
      when each is still active and the member was not already active with a binding to it
      that has lapsed by then: such a binding is kept as it is and not renewed. */
  lemma GrantedInEffectIff(t: Team, clock: Clock, id: Uuid, secret: seq<int>, user: Uuid, anonymous: bool, member: Uuid,
                           now: int)
    requires Inv(t) && Accept(t, clock, id, secret, user, anonymous, member).Ok?
    ensures var after, m := Accept(t, clock, id, secret, user, anonymous, member).value, Joiner(t, user, member);
      (forall a :: a in t.invitations[id].granted ==> InEffect(after, Place(m, a.role, a.store), now))
      <==> forall a :: a in t.invitations[id].granted ==>
             a.role in t.roles && t.roles[a.role].active && !LapsedGrant(t, m, a, now)
  {
    var after, m := Accept(t, clock, id, secret, user, anonymous, member).value, Joiner(t, user, member);
    AcceptanceEffect(t, clock, id, secret, user, anonymous, member);
    forall a | a in t.invitations[id].granted
      ensures BoundAt(after, Place(m, a.role, a.store), now) <==> !LapsedGrant(t, m, a, now)
    {
      var p := Place(m, a.role, a.store);
      assert Assignment(p.role, p.store) == a && p in after.bindings;
    }
    assert after.roles == t.roles;
  }

  predicate LapsedGrant(t: Team, m: Uuid, a: Assignment, now: int) {
    var p := Place(m, a.role, a.store);
    WasActive(t, m) && p in t.bindings && !Live(t.bindings[p], now)
  }

  /** One member whose binding to role 5 ended at time 10, and an invitation to that role. */
  function LapsedTeam(): Team {
    var invitation := Invitation(PENDING, "m@example.org", [], 15, 100, {Assignment(5, None)});
    Team(map[1 := O.ACTIVE], map[5 := Role(false, false, true, false, {})], map[],
         map[Place(1, 5, None) := Binding(0, Some(10))], true, [1], map[1 := 2], map[2 := "m@example.org"], {},
         map[7 := invitation])
  }

  lemma LapsedTeamIsGood()
    ensures Inv(LapsedTeam()) && Joiner(LapsedTeam(), 2, 9) == 1
  {
    var t := LapsedTeam();
    assert PeopleOk(t);
    assert RightsOk(t);
    assert InvitationsOk(t);
  }

  /** An active member whose temporary role has lapsed is invited to it again, accepts, and
      still does not have it. */
  lemma LapsedRoleIsNotRenewed()
    ensures Inv(LapsedTeam()) && LapsedTeam().invitations[7].granted == {Assignment(5, None)}
    ensures var done := Accept(LapsedTeam(), Clock(20, 20), 7, [], 2, false, 9);
      done.Ok? && Joiner(LapsedTeam(), 2, 9) == 1 && !InEffect(done.value, Place(1, 5, None), 20)
  {
    var t := LapsedTeam();
    LapsedTeamIsGood();
    assert Accept(t, Clock(20, 20), 7, [], 2, false, 9).Ok?;
    assert LapsedGrant(t, 1, Assignment(5, None), 20);
    AcceptanceEffect(t, Clock(20, 20), 7, [], 2, false, 9);
  }

  /** Whoever accepts holds the membership and the invited address. */
  lemma AcceptanceNames(t: Team, clock: Clock, id: Uuid, secret: seq<int>, user: Uuid, anonymous: bool, member: Uuid)
    requires Accept(t, clock, id, secret, user, anonymous, member).Ok?
    ensures var after, m := Accept(t, clock, id, secret, user, anonymous, member).value, Joiner(t, user, member);
      && m in after.userOf && after.userOf[m] == user
      && user in after.emails && after.emails[user] == t.invitations[id].email && secret == t.invitations[id].secret
  {
    var known, joined := AcceptIs(t, clock, id, secret, user, anonymous, member);
    JoinIs(known, user, t.invitations[id].granted, member, clock.dbNow);
  }

  predicate Terminal(i: Invitation) {
    i.status != PENDING
  }

  predicate InvitationsKept(before: Team, after: Team) {
    forall i :: i in before.invitations ==>
      && i in after.invitations && after.invitations[i].email == before.invitations[i].email
      && after.invitations[i].granted == before.invitations[i].granted
      && (Terminal(before.invitations[i]) ==> after.invitations[i] == before.invitations[i])
  }

  predicate RemovedKept(before: Team, after: Team) {
    forall m :: m in before.status && before.status[m] == O.REMOVED ==>
      m in after.status && after.status[m] == O.REMOVED
  }

  lemma JoinKeepsRemoved(t: Team, user: Uuid, granted: set<Assignment>, member: Uuid, dbNow: int)
    requires Join(t, user, granted, member, dbNow).Ok?
    ensures RemovedKept(t, Join(t, user, granted, member, dbNow).value)
  {
    JoinIs(t, user, granted, member, dbNow);
  }

  lemma StepKeepsRows(t: Team, op: Op)
    ensures InvitationsKept(t, Step(t, op)) && RemovedKept(t, Step(t, op))
  {
    if op.AcceptInvitation? {
      AcceptKeepsRows(t, op);
    } else {
      EditKeepsRows(t, op);
    }
  }

  lemma AcceptKeepsRows(t: Team, op: Op)
    requires op.AcceptInvitation?
    ensures InvitationsKept(t, Step(t, op)) && RemovedKept(t, Step(t, op))
  {
    if Perform(t, op).Ok? {
      var known, joined := AcceptIs(t, op.clock, op.id, op.secret, op.user, op.anonymous, op.member);
      JoinKeepsRemoved(known, op.user, t.invitations[op.id].granted, op.member, op.clock.dbNow);
    }
  }

  lemma EditKeepsRows(t: Team, op: Op)
    requires !op.AcceptInvitation?
    ensures InvitationsKept(t, Step(t, op)) && RemovedKept(t, Step(t, op))
  {
    if op.SendInvitation? || op.ResendInvitation? || op.RevokeInvitation? {
      InvitationEditKeepsRows(t, op);
    } else {
      assert Step(t, op).invitations == t.invitations;
    }
  }

  lemma InvitationEditKeepsRows(t: Team, op: Op)
    requires op.SendInvitation? || op.ResendInvitation? || op.RevokeInvitation?
    ensures InvitationsKept(t, Step(t, op)) && RemovedKept(t, Step(t, op))
  {
    assert Step(t, op).status == t.status;
  }

  /** A used, revoked or expired invitation never changes again, no invitation changes its
      assignments, and a removed membership is never restored, in any run. */
  lemma {:induction false} RunKeepsRows(t: Team, ops: seq<Op>)
    ensures InvitationsKept(t, Exec(t, ops)) && RemovedKept(t, Exec(t, ops))
  {
    if ops != [] {
      RunKeepsRows(t, ops[..|ops| - 1]);
      StepKeepsRows(Exec(t, ops[..|ops| - 1]), ops[|ops| - 1]);
    }
  }

  /** An invitation is accepted at most once, and only before it expires by both clocks. */
  lemma AcceptedAtMostOnce(t: Team, clock: Clock, id: Uuid, secret: seq<int>, user: Uuid, anonymous: bool, member: Uuid,
                           ops: seq<Op>, later: Clock, again: seq<int>, other: Uuid, anonymousAgain: bool,
                           another: Uuid)
    requires Accept(t, clock, id, secret, user, anonymous, member).Ok?
    ensures clock.now < t.invitations[id].expires && clock.dbNow < t.invitations[id].expires
    ensures Accept(Exec(Accept(t, clock, id, secret, user, anonymous, member).value, ops), later, id, again, other,
                   anonymousAgain, another).Err?
  {
    var after := Accept(t, clock, id, secret, user, anonymous, member).value;
    RunKeepsRows(after, ops);
    assert Terminal(after.invitations[id]);
  }
}
