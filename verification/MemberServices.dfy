/**
 The membership, role-binding and invitation services over mutable tables: the statements
 of each transaction in their order, proved to make the steps of Memberships.
 */
module MemberServices {
  import opened Results
  import opened Identifiers
  import opened Credentials
  import opened Memberships
  import O = Owners

  /** A transaction that goes through leaves its result; one that fails leaves the tables. */
  predicate Answered(done: Outcome, before: Team, after: Team, r: Option<TeamError>) {
    if done.Ok? then r == None && after == done.value else r == Some(done.error) && after == before
  }

  class Members {
    var status: map<Uuid, O.Status>
    var roles: map<Uuid, Role>
    var stores: map<Uuid, bool>
    var bindings: map<Place, Binding>
    var active: bool
    var joined: seq<Uuid>
    var userOf: map<Uuid, Uuid>
    var emails: map<Uuid, string>
    var suspended: set<Uuid>
    var invitations: map<Uuid, Invitation>

    function View(): Team
      reads this
    {
      Team(status, roles, stores, bindings, active, joined, userOf, emails, suspended, invitations)
    }

    // ----- status and bindings -----

    /** The loop over a member's bindings. */
    method ScanOwnerBinding(m: Uuid, now: int) returns (owner: bool)
      ensures owner <==> OwnerAt(View(), m, now)
    {
      var rest := set p | p in bindings && p.member == m;
      while rest != {}
        invariant forall p :: p in rest ==> p in bindings && p.member == m
        invariant forall p :: p in bindings && p.member == m && p !in rest ==> !OwnerBinding(View(), p, m, now)
        decreases |rest|
      {
        var p :| p in rest;
        if p.role in roles && roles[p.role].ownerKey && roles[p.role].system && roles[p.role].active && p.store.None?
           && (bindings[p].expires.None? || bindings[p].expires.value > now) {
          assert OwnerBinding(View(), p, m, now);
          return true;
        }
        rest := rest - {p};
      }
      return false;
    }

    /** The decision on a status change; `ownerCount` was taken with the owners' locks. */
    method CheckStatus(actor: Acting, clock: Clock, m: Uuid, to: O.Status, ownerCount: nat)
      returns (r: Option<TeamError>)
      requires m in status && status[m] != to && ownerCount == |OwnersAt(View(), clock.dbNow)|
      ensures r == StatusError(View(), actor, clock, m, to)
    {
      var current := status[m];
      if !O.ValidTransition(current, to) {
        return Some(InvalidTransition);
      }
      var leavingActive := current == O.ACTIVE && to != O.ACTIVE;
      var owner := ScanOwnerBinding(m, clock.now);
      if owner && !actor.owners {
        return Some(InsufficientScope);
      }
      if owner && leavingActive && ownerCount <= 1 {
        return Some(LastOwnerRequired);
      }
      return None;
    }

    method UpdateStatus(actor: Acting, clock: Clock, m: Uuid, to: O.Status) returns (r: Option<TeamError>)
      modifies this`status
      ensures Answered(Memberships.UpdateStatus(old(View()), actor, clock, m, to), old(View()), View(), r)
    {
      var ownerCount := |OwnersAt(View(), clock.dbNow)|;
      if m !in status {
        return Some(MembershipNotFound);
      }
      if status[m] == to {
        return None;
      }
      r := CheckStatus(actor, clock, m, to, ownerCount);
      if r.None? {
        status := status[m := to];
      }
    }

    method DeleteBinding(actor: Acting, clock: Clock, p: Place) returns (r: Option<TeamError>)
      modifies this`bindings
      ensures Answered(Memberships.DeleteBinding(old(View()), actor, clock, p), old(View()), View(), r)
    {
      if p.member !in status {
        return Some(MembershipNotFound);
      }
      if p !in bindings || p.role !in roles {
        return Some(BindingNotFound);
      }
      var role, binding := roles[p.role], bindings[p];
      if role.ownerKey && role.system {
        if !actor.owners {
          return Some(InsufficientScope);
        }
        var ownerCount := |OwnersAt(View(), clock.dbNow)|;
        var contributesOwner := status[p.member] == O.ACTIVE && role.active
                                && (binding.expires.None? || binding.expires.value > clock.now);
        if contributesOwner && ownerCount <= 1 {
          return Some(LastOwnerRequired);
        }
      }
      bindings := bindings - {p};
      return None;
    }

    /** Every scope asked for must be among those the member may pass on. */
    method EnsureGrantSubset(m: Uuid, scopes: set<string>, dbNow: int) returns (ok: bool)
      ensures ok <==> MayGrantAll(View(), m, scopes, dbNow)
    {
      var rest := scopes;
      while rest != {}
        invariant rest <= scopes && forall s :: s in scopes && s !in rest ==> MayGrant(View(), m, s, dbNow)
        decreases |rest|
      {
        var s :| s in rest;
        if !MayGrant(View(), m, s, dbNow) {
          return false;
        }
        rest := rest - {s};
      }
      return true;
    }

    /** The scan of a member's bindings for one to the same role and store. */
    method FindBinding(p: Place) returns (found: Option<Binding>)
      ensures found == if p in bindings then Some(bindings[p]) else None
    {
      var rest := set q | q in bindings && q.member == p.member;
      while rest != {}
        invariant forall q :: q in rest ==> q in bindings && q.member == p.member
        invariant p in bindings ==> p in rest
        decreases |rest|
      {
        var q :| q in rest;
        if q.role == p.role && q.store == p.store {
          assert q == p;
          return Some(bindings[q]);
        }
        rest := rest - {q};
      }
      return None;
    }

    /** What is checked of the member, the role and the store. */
    method CheckBinding(actor: Acting, p: Place, expires: Option<int>) returns (r: Option<TeamError>)
      ensures r == BindingError(View(), actor, p, expires)
    {
      if p.member !in status {
        return Some(MembershipNotFound);
      }
      if status[p.member] != O.ACTIVE {
        return Some(MembershipInactive);
      }
      if p.role !in roles {
        return Some(RoleNotFound);
      }
      var role := roles[p.role];
      if !role.active {
        return Some(RoleInactive);
      }
      if role.ownerKey && role.system {
        if !actor.owners {
          return Some(InsufficientScope);
        }
        if expires.Some? {
          return Some(ValidationError);
        }
      }
      if role.storeScoped && p.store.None? {
        return Some(ValidationError);
      }
      if !role.storeScoped && p.store.Some? {
        return Some(ValidationError);
      }
      if p.store.Some? && p.store.value !in stores {
        return Some(StoreNotFound);
      }
      return None;
    }

    /** An existing binding with the same expiration is left, any other is rewritten. */
    method CreateBinding(actor: Acting, clock: Clock, p: Place, expires: Option<int>) returns (r: Option<TeamError>)
      modifies this`bindings
      ensures Answered(Memberships.CreateBinding(old(View()), actor, clock, p, expires), old(View()), View(), r)
    {
      if expires.Some? && expires.value <= clock.now {
        return Some(ValidationError);
      }
      r := CheckBinding(actor, p, expires);
      if r.Some? {
        return r;
      }
      var granted := EnsureGrantSubset(actor.member, roles[p.role].scopes, clock.dbNow);
      if !granted {
        return Some(AuthorizationEscalation);
      }
      var existing := FindBinding(p);
      if existing.Some? && existing.value.expires == expires {
        return None;
      }
      var created := if existing.Some? then existing.value.created else clock.dbNow;
      if expires.Some? && expires.value <= created {
        return Some(DependencyError);
      }
      bindings := bindings[p := Binding(created, expires)];
      return None;
    }

    // ----- invitations -----

    method CheckAssignment(actor: Acting, dbNow: int, a: Assignment) returns (r: Option<TeamError>)
      ensures r == AssignmentError(View(), actor, dbNow, a)
    {
      if a.role !in roles {
        return Some(RoleNotFound);
      }
      var role := roles[a.role];
      if !role.active {
        return Some(RoleInactive);
      }
      var granted := EnsureGrantSubset(actor.member, role.scopes, dbNow);
      if !granted {
        return Some(InsufficientScope);
      }
      if role.ownerKey && role.system && !actor.owners {
        return Some(InsufficientScope);
      }
      if role.storeScoped != a.store.Some? {
        return Some(ValidationError);
      }
      if a.store.Some? {
        if a.store.value !in stores {
          return Some(StoreNotFound);
        }
        if !stores[a.store.value] {
          return Some(StoreInactive);
        }
      }
      return None;
    }

    /** The loop over the assignments with the set of those already seen. */
    method ValidateAssignments(actor: Acting, dbNow: int, inputs: seq<Assignment>, ttls: Lifetimes)
      returns (r: Result<int, TeamError>)
      ensures r == CheckAssignments(View(), actor, dbNow, inputs, 0, ttls.ordinary, ttls)
    {
      var seen: set<Assignment> := {};
      var ttl := ttls.ordinary;
      for i := 0 to |inputs|
        invariant forall a :: a in seen <==> a in inputs[..i]
        invariant CheckAssignments(View(), actor, dbNow, inputs, 0, ttls.ordinary, ttls)
               == CheckAssignments(View(), actor, dbNow, inputs, i, ttl, ttls)
      {
        if inputs[i] in seen {
          return Err(ValidationError);
        }
        seen := seen + {inputs[i]};
        assert inputs[..i + 1] == inputs[..i] + [inputs[i]];
        var bad := CheckAssignment(actor, dbNow, inputs[i]);
        if bad.Some? {
          return Err(bad.value);
        }
        if OwnerRole(roles, inputs[i].role) {
          ttl := ttls.owner;
        }
      }
      return Ok(ttl);
    }

    /** Stale invitations of the address are marked, the new one and its assignments
        written; a refused write restores the table. */
    method CreateInvitation(actor: Acting, clock: Clock, first: NewToken, email: string, inputs: seq<Assignment>,
                            ttls: Lifetimes)
      returns (r: Option<TeamError>)
      modifies this`invitations
      ensures Answered(Invite(old(View()), actor, clock, first, email, inputs, ttls), old(View()), View(), r)
    {
      if |inputs| == 0 || |inputs| > MAX_ASSIGNMENTS {
        return Some(ValidationError);
      }
      if !ValidInviter(View(), actor) {
        return Some(InsufficientScope);
      }
      var validated := ValidateAssignments(actor, clock.dbNow, inputs, ttls);
      if validated.Err? {
        return Some(validated.error);
      }
      var before, expires := invitations, clock.now + validated.value;
      invitations := ExpireStale(invitations, email, clock.dbNow);
      if PendingFor(invitations, email) {
        invitations := before;
        return Some(InvitationPending);
      }
      if first.id in invitations || expires <= clock.dbNow {
        invitations := before;
        return Some(DependencyError);
      }
      var granted := set a | a in inputs;
      if !OwnersInvited(View(), actor, clock.dbNow, granted) {
        invitations := before;
        return Some(InsufficientScope);
      }
      invitations := invitations[first.id := Invitation(PENDING, email, first.secret, clock.dbNow, expires, granted)];
      return None;
    }

    // ----- acceptance -----

    /** The user's newest membership, by a scan from the end. */
    method FindLatest(user: Uuid) returns (m: Option<Uuid>)
      ensures m == Latest(joined, userOf, user)
    {
      var n := |joined|;
      assert joined[..n] == joined;
      while n > 0
        invariant n <= |joined| && Latest(joined, userOf, user) == Latest(joined[..n], userOf, user)
      {
        var last := joined[n - 1];
        assert joined[..n][n - 1] == last && joined[..n][..n - 1] == joined[..n - 1];
        if last in userOf && userOf[last] == user {
          return Some(last);
        }
        n := n - 1;
      }
      return None;
    }

    /** Find, reactivate or create the membership, replace or extend its bindings. */
    method EnsureMembership(user: Uuid, granted: set<Assignment>, member: Uuid, dbNow: int)
      returns (r: Option<TeamError>)
      modifies this`status, this`bindings, this`joined, this`userOf
      ensures var done := Join(old(View()), user, granted, member, dbNow);
        if done.Ok? then r == None && View() == done.value else r == Some(done.error)
    {
      var latest := FindLatest(user);
      if latest.None? || latest.value !in status || status[latest.value] == O.REMOVED {
        if HasCurrent(View(), user) {
          return Some(MembershipConflict);
        }
        if member in status {
          return Some(DependencyError);
        }
        status := status[member := O.ACTIVE];
        joined := joined + [member];
        userOf := userOf[member := user];
        bindings := Copied(bindings, member, granted, dbNow);
        return None;
      }
      var m := latest.value;
      if status[m] == O.SUSPENDED {
        status := status[m := O.ACTIVE];
        bindings := WithoutMember(bindings, m);
      }
      bindings := Copied(bindings, m, granted, dbNow);
      return None;
    }

    /** The statements of an acceptance; what a failed one has written is still there. */
    method AcceptStatements(clock: Clock, id: Uuid, secret: seq<int>, user: Uuid, anonymous: bool, member: Uuid)
      returns (r: Option<TeamError>)
      modifies this
      ensures var done := Accept(old(View()), clock, id, secret, user, anonymous, member);
        if done.Ok? then r == None && View() == done.value else r == Some(done.error)
    {
      if id !in invitations || invitations[id].secret != secret {
        return Some(InvitationNotFound);
      }
      var invitation := invitations[id];
      var state := StateError(invitation, clock.now, false);
      if state.Some? {
        return state;
      }
      if !active {
        return Some(InvitationNotFound);
      }
      if anonymous {
        if EmailKnown(emails, invitation.email) {
          return Some(AuthenticationRequired);
        }
        if user in emails {
          return Some(DependencyError);
        }
        emails := emails[user := invitation.email];
      } else {
        if user !in emails || emails[user] != invitation.email {
          return Some(EmailMismatch);
        }
        if user in suspended {
          return Some(UserBlocked);
        }
      }
      r := EnsureMembership(user, invitation.granted, member, clock.dbNow);
      if r.Some? {
        return r;
      }
      if invitation.expires <= clock.dbNow {
        return Some(InvitationNotFound);
      }
      invitations := invitations[id := invitation.(status := ACCEPTED)];
      return None;
    }

    /** Commits an acceptance or rolls everything back: user, membership and bindings. */
    method AcceptInvite(clock: Clock, id: Uuid, secret: seq<int>, user: Uuid, anonymous: bool, member: Uuid)
      returns (r: Option<TeamError>)
      modifies this
      ensures Answered(Accept(old(View()), clock, id, secret, user, anonymous, member), old(View()), View(), r)
    {
      var statusBefore, rolesBefore, storesBefore, bindingsBefore := status, roles, stores, bindings;
      var activeBefore, joinedBefore, userOfBefore := active, joined, userOf;
      var emailsBefore, suspendedBefore, invitationsBefore := emails, suspended, invitations;
      r := AcceptStatements(clock, id, secret, user, anonymous, member);
      if r.Some? {
        status, roles, stores, bindings := statusBefore, rolesBefore, storesBefore, bindingsBefore;
        active, joined, userOf := activeBefore, joinedBefore, userOfBefore;
        emails, suspended, invitations := emailsBefore, suspendedBefore, invitationsBefore;
      }
    }
  }
}
