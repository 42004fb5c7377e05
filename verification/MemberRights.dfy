/**
 What the members of an organization may do to each other's rights: the last owner, seen
 as one transaction of Owners at a time, and the limits of what anyone can grant.
 */
module MemberRights {
  import opened Results
  import opened Identifiers
  import opened Credentials
  import opened Memberships
  import O = Owners

  // ----- owners do not lapse -----

  lemma OwnerAtIsOwner(t: Team, m: Uuid, now: int)
    requires RightsOk(t)
    ensures OwnerAt(t, m, now) <==> O.HasOwnerBinding(Org(t), m)
  {
    var org := Org(t);
    if OwnerAt(t, m, now) {
      var p :| p in t.bindings && OwnerBinding(t, p, m, now);
      assert p == Place(m, p.role, None) && (m, p.role) in org.bindings && O.IsOwnerRole(org, p.role);
      assert (m, p.role).0 == m && O.IsOwnerRole(org, (m, p.role).1);
    }
    if O.HasOwnerBinding(org, m) {
      var b :| b in org.bindings && b.0 == m && O.IsOwnerRole(org, b.1);
      var p := Place(m, b.1, None);
      assert b == (m, b.1) && p in t.bindings && BindingOk(t, p);
      assert OwnerBinding(t, p, m, now);
    }
  }

  /** In a good state both clocks, at any time, count the same active owners: those of Owners. */
  lemma OwnersNeverLapse(t: Team, now: int)
    requires Inv(t)
    ensures OwnersAt(t, now) == O.ActiveOwners(Org(t))
    ensures forall m :: OwnerAt(t, m, now) <==> O.HasOwnerBinding(Org(t), m)
  {
    forall m ensures OwnerAt(t, m, now) <==> O.HasOwnerBinding(Org(t), m) { OwnerAtIsOwner(t, m, now); }
    forall m ensures m in OwnersAt(t, now) <==> m in O.ActiveOwners(Org(t)) { OwnerAtIsOwner(t, m, now); }
  }

  // ----- what may be granted -----

  /** The assignments pass exactly when no two are equal and each passes; the invitation
      lives as long as one to become an owner exactly when one of them is. */
  lemma {:induction false} CheckAssignmentsIff(t: Team, actor: Acting, dbNow: int, inputs: seq<Assignment>, i: nat,
                                               ttl: int, ttls: Lifetimes)
    requires i <= |inputs|
    ensures var r := CheckAssignments(t, actor, dbNow, inputs, i, ttl, ttls);
      && (r.Ok? <==> (forall k :: i <= k < |inputs| ==> AssignmentError(t, actor, dbNow, inputs[k]).None?)
                     && forall j, k :: 0 <= j < k < |inputs| && i <= k ==> inputs[j] != inputs[k])
      && (r.Ok? ==> r.value == if OwnerAmong(t.roles, inputs[i..]) then ttls.owner else ttl)
    decreases |inputs| - i
  {
    if i < |inputs| {
      var next := if OwnerRole(t.roles, inputs[i].role) then ttls.owner else ttl;
      CheckAssignmentsIff(t, actor, dbNow, inputs, i + 1, next, ttls);
      OwnerAmongStep(t.roles, inputs, i);
      if inputs[i] in inputs[..i] {
        var j :| 0 <= j < i && inputs[..i][j] == inputs[i];
        assert inputs[j] == inputs[i];
      } else {
        assert forall j :: 0 <= j < i ==> inputs[..i][j] == inputs[j];
      }
    }
  }

  predicate OwnerAmong(roles: map<Uuid, Role>, inputs: seq<Assignment>) {
    exists k :: 0 <= k < |inputs| && OwnerRole(roles, inputs[k].role)
  }

  lemma OwnerAmongStep(roles: map<Uuid, Role>, inputs: seq<Assignment>, i: nat)
    requires i < |inputs|
    ensures OwnerAmong(roles, inputs[i..]) <==> OwnerRole(roles, inputs[i].role) || OwnerAmong(roles, inputs[i + 1..])
  {
    var s, rest := inputs[i..], inputs[i + 1..];
    assert s == [inputs[i]] + rest;
    if OwnerRole(roles, inputs[i].role) { assert OwnerRole(roles, s[0].role); }
    if OwnerAmong(roles, rest) {
      var k :| 0 <= k < |rest| && OwnerRole(roles, rest[k].role);
      assert s[k + 1] == rest[k];
    }
    if OwnerAmong(roles, s) {
      var k :| 0 <= k < |s| && OwnerRole(roles, s[k].role);
      if k > 0 { assert s[k] == rest[k - 1]; }
    }
  }

  /** Only an active owner invites another owner, and nobody invites to more than they may grant. */
  lemma InvitationsStayWithinRights(t: Team, actor: Acting, clock: Clock, first: NewToken, email: string,
                                    inputs: seq<Assignment>, ttls: Lifetimes, a: Assignment)
    requires Inv(t) && Invite(t, actor, clock, first, email, inputs, ttls).Ok? && a in inputs
    ensures OwnerRole(t.roles, a.role) ==> actor.owners && O.IsActiveOwner(Org(t), actor.member)
    ensures a.role in t.roles && t.roles[a.role].active
    ensures MayGrantAll(t, actor.member, t.roles[a.role].scopes, clock.dbNow)
  {
    CheckAssignmentsIff(t, actor, clock.dbNow, inputs, 0, ttls.ordinary, ttls);
    var k :| 0 <= k < |inputs| && inputs[k] == a;
    assert AssignmentError(t, actor, clock.dbNow, inputs[k]).None?;
    if OwnerRole(t.roles, a.role) {
      var granted := set b | b in inputs;
      assert a in granted && OwnersInvited(t, actor, clock.dbNow, granted);
      assert OwnerBinding(t, Place(actor.member, a.role, None), actor.member, clock.dbNow);
      OwnerAtIsOwner(t, actor.member, clock.dbNow);
    }
  }

  /** A binding changes what its member may grant by at most what the acting member may
      grant, and nobody else's rights. */
  lemma BindingGrantsNoMore(t: Team, actor: Acting, clock: Clock, p: Place, expires: Option<int>, n: Uuid,
                            scope: string)
    requires CreateBinding(t, actor, clock, p, expires).Ok?
    requires MayGrant(CreateBinding(t, actor, clock, p, expires).value, n, scope, clock.dbNow)
    ensures MayGrant(t, n, scope, clock.dbNow) || (n == p.member && MayGrant(t, actor.member, scope, clock.dbNow))
  {
    var after := CreateBinding(t, actor, clock, p, expires).value;
    var q :| q in after.bindings && GrantingBinding(after, q, n, scope, clock.dbNow);
    if q != p || after == t {
      assert GrantingBinding(t, q, n, scope, clock.dbNow);
    }
  }

  // ----- the last owner, one step at a time -----

  /** The organization-wide roles among some assignments. */
  function OrgWide(granted: set<Assignment>): (s: set<Uuid>)
    ensures forall r: Uuid :: r in s <==> Assignment(r, None) in granted
  {
    set a | a in granted && a.store.None? :: a.role
  }

  /** What an acceptance asks: to admit a member or to add one. */
  function JoinJob(t: Team, m: Uuid, granted: set<Assignment>): O.Job {
    if m in t.status then O.AcceptExisting(m, OrgWide(granted)) else O.AcceptNew(m, OrgWide(granted))
  }

  /** What a command of the team asks of the organization's members and bindings. */
  function JobOf(t: Team, op: Op): Option<O.Job> {
    match op
    case SetStatus(_, _, m, to) => Some(O.UpdateStatus(m, to))
    case Unbind(_, _, place) => Some(O.DeleteBinding(place.member, place.role))
    case Bind(_, _, place, _) => Some(O.CreateBinding(place.member, place.role))
    case AcceptInvitation(_, id, _, user, _, member) =>
      if id !in t.invitations then None else Some(JoinJob(t, Joiner(t, user, member), t.invitations[id].granted))
    case AddRole(role, _, _) => Some(O.CreateRole(role, false))
    case EditRole(role, active, _) => Some(O.SetRoleActive(role, active))
    case _ => None
  }

  /** A transaction of Owners about to decide, with all active owners counted. */
  function Decider(db: O.Db, job: O.Job): O.Actor {
    O.Actor(job, true, true, Some(O.ActiveOwners(db)), O.Working)
  }

  ghost predicate DoneAs(before: O.Db, after: O.Db, job: O.Job) {
    after == O.Effect(before, job) && O.Allowed(before, Decider(before, job))
  }

  /** A command that goes through either leaves the organization alone or does its job,
      allowed by the rules of Owners on a count of all active owners. */
  lemma CommandIsAllowedJob(t: Team, op: Op)
    requires Inv(t) && Perform(t, op).Ok? && Org(Step(t, op)) != Org(t)
    ensures JobOf(t, op).Some? && DoneAs(Org(t), Org(Step(t, op)), JobOf(t, op).value)
  {
    match op
    case AcceptInvitation(clock, id, secret, user, anonymous, member) =>
      AcceptIsAllowedJob(t, clock, id, secret, user, anonymous, member);
    case SetStatus(actor, clock, m, to) => StatusIsAllowedJob(t, actor, clock, m, to);
    case Unbind(actor, clock, place) => UnbindIsAllowedJob(t, actor, clock, place);
    case Bind(actor, clock, place, until) => BindIsAllowedJob(t, actor, clock, place, until);
    case AddRole(role, storeScoped, scopes) => AddRoleIsAllowedJob(t, op);
    case EditRole(role, active, scopes) => EditRoleIsAllowedJob(t, op);
    case _ =>
  }

  lemma StatusIsAllowedJob(t: Team, actor: Acting, clock: Clock, m: Uuid, to: O.Status)
    requires Inv(t) && UpdateStatus(t, actor, clock, m, to).Ok? && t.status[m] != to
    ensures DoneAs(Org(t), Org(UpdateStatus(t, actor, clock, m, to).value), O.UpdateStatus(m, to))
  {
    OwnersNeverLapse(t, clock.now);
    OwnersNeverLapse(t, clock.dbNow);
  }

  lemma RemovedPlace(bindings: map<Place, Binding>, p: Place)
    ensures p.store.None? ==> OrgBindings(bindings - {p}) == OrgBindings(bindings) - {(p.member, p.role)}
    ensures p.store.Some? ==> OrgBindings(bindings - {p}) == OrgBindings(bindings)
  {
    var after := bindings - {p};
    forall m: Uuid, r: Uuid
      ensures (m, r) in OrgBindings(after) <==> (m, r) in OrgBindings(bindings) && Place(m, r, None) != p {
    }
  }

  lemma UnbindIsAllowedJob(t: Team, actor: Acting, clock: Clock, p: Place)
    requires Inv(t) && DeleteBinding(t, actor, clock, p).Ok? && Org(DeleteBinding(t, actor, clock, p).value) != Org(t)
    ensures DoneAs(Org(t), Org(DeleteBinding(t, actor, clock, p).value), O.DeleteBinding(p.member, p.role))
  {
    RemovedPlace(t.bindings, p);
    OwnersNeverLapse(t, clock.dbNow);
    assert BindingOk(t, p);
    assert p == Place(p.member, p.role, None);
  }

  lemma AddedPlace(bindings: map<Place, Binding>, p: Place, b: Binding)
    ensures p.store.None? ==> OrgBindings(bindings[p := b]) == OrgBindings(bindings) + {(p.member, p.role)}
    ensures p.store.Some? ==> OrgBindings(bindings[p := b]) == OrgBindings(bindings)
  {
    var after := bindings[p := b];
    forall m: Uuid, r: Uuid
      ensures (m, r) in OrgBindings(after) <==> (m, r) in OrgBindings(bindings) || Place(m, r, None) == p {
    }
  }

  lemma BindIsAllowedJob(t: Team, actor: Acting, clock: Clock, p: Place, until: Option<int>)
    requires CreateBinding(t, actor, clock, p, until).Ok?
    requires Org(CreateBinding(t, actor, clock, p, until).value) != Org(t)
    ensures DoneAs(Org(t), Org(CreateBinding(t, actor, clock, p, until).value), O.CreateBinding(p.member, p.role))
  {
    var after := CreateBinding(t, actor, clock, p, until).value;
    AddedPlace(t.bindings, p, after.bindings[p]);
  }

  lemma AddRoleIsAllowedJob(t: Team, op: Op)
    requires Perform(t, op).Ok? && op.AddRole?
    ensures DoneAs(Org(t), Org(Step(t, op)), O.CreateRole(op.role, false))
  {
    var row := Role(false, false, true, op.storeScoped, op.scopes);
    assert OrgRoles(t.roles[op.role := row]) == OrgRoles(t.roles)[op.role := O.Role(false, false, true)];
  }

  lemma EditRoleIsAllowedJob(t: Team, op: Op)
    requires Perform(t, op).Ok? && op.EditRole?
    ensures DoneAs(Org(t), Org(Step(t, op)), O.SetRoleActive(op.role, op.active))
  {
    var row := t.roles[op.role].(active := op.active, scopes := op.scopes);
    assert OrgRoles(t.roles[op.role := row])
        == OrgRoles(t.roles)[op.role := OrgRoles(t.roles)[op.role].(active := op.active)];
  }

  lemma CopiedOrg(bindings: map<Place, Binding>, m: Uuid, granted: set<Assignment>, dbNow: int)
    ensures OrgBindings(Copied(bindings, m, granted, dbNow)) == OrgBindings(bindings) + O.Grants(m, OrgWide(granted))
  {
    var c, g := Copied(bindings, m, granted, dbNow), O.Grants(m, OrgWide(granted));
    forall b: (Uuid, Uuid) ensures b in OrgBindings(c) <==> b in OrgBindings(bindings) + g {
      var n, r := b.0, b.1;
      assert b == (n, r);
      CopiedAt(bindings, m, granted, dbNow, Place(n, r, None));
      assert (n, r) in g <==> n == m && r in OrgWide(granted) by {
        if n == m && r in OrgWide(granted) { assert (m, r) in g; }
      }
    }
  }

  lemma WithoutMemberOrg(bindings: map<Place, Binding>, m: Uuid)
    ensures OrgBindings(WithoutMember(bindings, m)) == O.Without(OrgBindings(bindings), m)
  {
    forall b: (Uuid, Uuid)
      ensures b in OrgBindings(WithoutMember(bindings, m)) <==> b in O.Without(OrgBindings(bindings), m)
    {
      assert b == (b.0, b.1);
    }
  }

  lemma AdmittedOrg(t: Team, m: Uuid, granted: set<Assignment>, dbNow: int)
    requires m in t.status
    ensures OrgBindings(Admit(t, m, granted, dbNow).bindings)
         == (if t.status[m] == O.SUSPENDED then O.Without(OrgBindings(t.bindings), m) else OrgBindings(t.bindings))
            + O.Grants(m, OrgWide(granted))
  {
    if t.status[m] == O.SUSPENDED {
      CopiedOrg(WithoutMember(t.bindings, m), m, granted, dbNow);
      WithoutMemberOrg(t.bindings, m);
    } else {
      CopiedOrg(t.bindings, m, granted, dbNow);
    }
  }

  lemma AdmitIsJob(t: Team, m: Uuid, granted: set<Assignment>, dbNow: int)
    requires m in t.status
    ensures Org(Admit(t, m, granted, dbNow)) == O.Effect(Org(t), O.AcceptExisting(m, OrgWide(granted)))
  {
    var after := Admit(t, m, granted, dbNow);
    AdmittedOrg(t, m, granted, dbNow);
    assert after.roles == t.roles;
    assert after.status == if t.status[m] == O.SUSPENDED then t.status[m := O.ACTIVE] else t.status;
  }

  lemma AddMemberIsJob(t: Team, user: Uuid, granted: set<Assignment>, m: Uuid, dbNow: int)
    requires AddMember(t, user, granted, m, dbNow).Ok?
    ensures Org(AddMember(t, user, granted, m, dbNow).value) == O.Effect(Org(t), O.AcceptNew(m, OrgWide(granted)))
  {
    CopiedOrg(t.bindings, m, granted, dbNow);
  }

  lemma JoinIsAllowedJob(t: Team, user: Uuid, granted: set<Assignment>, member: Uuid, dbNow: int)
    requires Join(t, user, granted, member, dbNow).Ok?
    ensures DoneAs(Org(t), Org(Join(t, user, granted, member, dbNow).value),
                   JoinJob(t, Joiner(t, user, member), granted))
  {
    var m := Joiner(t, user, member);
    assert O.Allowed(Org(t), Decider(Org(t), JoinJob(t, m, granted)));
    JoinIs(t, user, granted, member, dbNow);
    if Stands(t, m) {
      AdmitIsJob(t, m, granted, dbNow);
    } else {
      AddMemberIsJob(t, user, granted, m, dbNow);
    }
  }

  lemma AcceptIsAllowedJob(t: Team, clock: Clock, id: Uuid, secret: seq<int>, user: Uuid, anonymous: bool, member: Uuid)
    requires Accept(t, clock, id, secret, user, anonymous, member).Ok?
    ensures id in t.invitations
    ensures DoneAs(Org(t), Org(Accept(t, clock, id, secret, user, anonymous, member).value),
                   JoinJob(t, Joiner(t, user, member), t.invitations[id].granted))
  {
    var known, joined := AcceptIs(t, clock, id, secret, user, anonymous, member);
    JoinIsAllowedJob(known, user, t.invitations[id].granted, member, clock.dbNow);
  }

  lemma DoneKeepsAnOwner(before: O.Db, after: O.Db, job: O.Job)
    requires DoneAs(before, after, job) && O.ActiveOwners(before) != {}
    ensures O.ActiveOwners(after) != {}
  {
    if O.ReducesOwners(job) && O.LosesOwner(before, job) {
      O.ApprovalIsSafe(before, Decider(before, job));
    }
    O.EffectKeepsAnOwner(before, job, O.ActiveOwners(before));
  }

  /** No command takes the last active owner. */
  lemma StepKeepsAnOwner(t: Team, op: Op)
    requires Inv(t) && O.ActiveOwners(Org(t)) != {}
    ensures O.ActiveOwners(Org(Step(t, op))) != {}
  {
    if Perform(t, op).Ok? && Org(Step(t, op)) != Org(t) {
      CommandIsAllowedJob(t, op);
      DoneKeepsAnOwner(Org(t), Org(Step(t, op)), JobOf(t, op).value);
    }
  }

  /** Nor does any run, by whichever clock owners are counted at its end. */
  lemma {:induction false} RunKeepsAnOwner(t: Team, ops: seq<Op>, now: int)
    requires Inv(t) && O.ActiveOwners(Org(t)) != {}
    ensures O.ActiveOwners(Org(Exec(t, ops))) != {} && OwnersAt(Exec(t, ops), now) != {}
  {
    EveryRunKeepsInv(t, ops);
    OwnersNeverLapse(Exec(t, ops), now);
    if ops != [] {
      var before := ops[..|ops| - 1];
      EveryRunKeepsInv(t, before);
      RunKeepsAnOwner(t, before, now);
      StepKeepsAnOwner(Exec(t, before), ops[|ops| - 1]);
    }
  }
}
