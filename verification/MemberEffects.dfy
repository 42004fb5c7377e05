/**
 What each command on members, bindings and invitations needs and what it does, told by its
 inputs and the tables before and after; and that owners answer to owners only.
 */
module MemberEffects {
  import opened Results
  import opened Identifiers
  import opened Credentials
  import opened Memberships
  import opened MemberRights
  import Sets
  import O = Owners

  // ----- status -----

  predicate IsOwner(t: Team, m: Uuid) {
    O.HasOwnerBinding(Org(t), m)
  }

  /** Another member is an active owner. */
  ghost predicate OtherOwner(t: Team, m: Uuid) {
    exists n :: n != m && n in O.ActiveOwners(Org(t))
  }

  lemma OtherOwnerIff(t: Team, m: Uuid)
    requires m in O.ActiveOwners(Org(t))
    ensures OtherOwner(t, m) <==> |O.ActiveOwners(Org(t))| > 1
  {
    var all := O.ActiveOwners(Org(t));
    if |all| > 1 {
      var n := Sets.OtherElement(all, m);
      assert n != m && n in all;
    }
    if OtherOwner(t, m) {
      var n :| n != m && n in all;
      Sets.SubsetSize({m, n}, all);
      assert |{m, n}| == 2;
    }
  }

  /** A change of status goes through exactly if it changes nothing, or leads from active to
      suspended or back or from either to removed, an owner's is asked for by someone who may
      manage owners, and an active owner's leaves another. It changes that status only. */
  lemma UpdateStatusIff(t: Team, actor: Acting, clock: Clock, m: Uuid, to: O.Status)
    requires Inv(t)
    ensures var r := UpdateStatus(t, actor, clock, m, to);
      && (r.Ok? <==>
            && m in t.status
            && (t.status[m] != to ==>
                  && t.status[m] != O.REMOVED
                  && (IsOwner(t, m) ==> actor.owners)
                  && (IsOwner(t, m) && t.status[m] == O.ACTIVE ==> OtherOwner(t, m))))
      && (r.Ok? ==> r.value == t.(status := t.status[m := to]))
    ensures m in t.status && t.status[m] != to && t.status[m] != O.REMOVED && IsOwner(t, m) && !actor.owners ==>
      UpdateStatus(t, actor, clock, m, to) == Err(InsufficientScope)
  {
    assert OwnerAt(t, m, clock.now) <==> IsOwner(t, m) by { OwnersNeverLapse(t, clock.now); }
    assert OwnersAt(t, clock.dbNow) == O.ActiveOwners(Org(t)) by { OwnersNeverLapse(t, clock.dbNow); }
    if m in t.status {
      if IsOwner(t, m) && t.status[m] == O.ACTIVE { OtherOwnerIff(t, m); }
      StatusErrorIff(t, actor, clock, m, to);
      assert t.status[m := t.status[m]] == t.status;
    }
  }

  lemma StatusErrorIff(t: Team, actor: Acting, clock: Clock, m: Uuid, to: O.Status)
    requires m in t.status
    ensures t.status[m] != to ==>
      (StatusError(t, actor, clock, m, to).None? <==>
         && t.status[m] != O.REMOVED && (OwnerAt(t, m, clock.now) ==> actor.owners)
         && (OwnerAt(t, m, clock.now) && t.status[m] == O.ACTIVE ==> |OwnersAt(t, clock.dbNow)| > 1))
    ensures t.status[m] != to && t.status[m] != O.REMOVED && OwnerAt(t, m, clock.now) && !actor.owners ==>
      StatusError(t, actor, clock, m, to) == Some(InsufficientScope)
  {
  }

  // ----- bindings -----

  /** Exactly the named binding goes; one to the owner role only at the hand of someone who
      may manage owners, and an active owner's only if another owner stays. */
  lemma DeleteBindingIff(t: Team, actor: Acting, clock: Clock, p: Place)
    requires Inv(t)
    ensures var r := DeleteBinding(t, actor, clock, p);
      && (r.Ok? <==>
            && p in t.bindings
            && (OwnerRole(t.roles, p.role) ==>
                  actor.owners && (t.status[p.member] == O.ACTIVE ==> |O.ActiveOwners(Org(t))| > 1)))
      && (r.Ok? ==> && p !in r.value.bindings && r.value == t.(bindings := r.value.bindings)
                    && forall q :: q != p ==> (q in r.value.bindings <==> q in t.bindings)
                                              && (q in t.bindings ==> r.value.bindings[q] == t.bindings[q]))
      && (p in t.bindings && OwnerRole(t.roles, p.role) && !actor.owners ==> r == Err(InsufficientScope))
  {
    OwnersNeverLapse(t, clock.dbNow);
    if p in t.bindings { assert BindingOk(t, p) && RoleOk(t.roles[p.role]); }
  }

  /** A binding can be asked for: an active member, an active role that fits the place, a store
      that exists, an end in the future if any, and for the owner role someone who may manage
      owners and no end. */
  predicate Requestable(t: Team, actor: Acting, clock: Clock, p: Place, until: Option<int>) {
    && p.member in t.status && t.status[p.member] == O.ACTIVE
    && p.role in t.roles && t.roles[p.role].active && (t.roles[p.role].storeScoped <==> p.store.Some?)
    && (p.store.Some? ==> p.store.value in t.stores)
    && (until.Some? ==> clock.now < until.value)
    && (OwnerRole(t.roles, p.role) ==> actor.owners && until.None?)
  }

  /** A binding is created exactly if it can be asked for by someone who may grant the role's
      scopes; a new one must also end after it is written, a rewritten one after it was. It
      then runs as asked, and nothing else changes. */
  lemma CreateBindingIff(t: Team, actor: Acting, clock: Clock, p: Place, until: Option<int>)
    ensures var r := CreateBinding(t, actor, clock, p, until);
      && (r.Ok? <==>
            && Requestable(t, actor, clock, p, until)
            && (forall s :: s in t.roles[p.role].scopes ==> MayGrant(t, actor.member, s, clock.dbNow))
            && (until.Some? && p !in t.bindings ==> clock.dbNow < until.value)
            && (until.Some? && p in t.bindings && t.bindings[p].expires != until ==>
                  t.bindings[p].created < until.value))
      && (r.Ok? ==>
            && p in r.value.bindings && r.value == t.(bindings := t.bindings[p := r.value.bindings[p]])
            && r.value.bindings[p].expires == until
            && r.value.bindings[p].created == if p in t.bindings then t.bindings[p].created else clock.dbNow)
  {
    if p in t.bindings { assert t.bindings[p := t.bindings[p]] == t.bindings; }
  }

  /** What is bound is in effect until its end, and gone once it is deleted again. */
  lemma BoundIsInEffect(t: Team, actor: Acting, clock: Clock, p: Place, until: Option<int>, now: int)
    requires CreateBinding(t, actor, clock, p, until).Ok?
    ensures var after := CreateBinding(t, actor, clock, p, until).value;
      InEffect(after, p, now) <==> until.None? || now < until.value
  {
    CreateBindingIff(t, actor, clock, p, until);
  }

  lemma BindThenUnbind(t: Team, actor: Acting, clock: Clock, p: Place, until: Option<int>, later: Clock)
    requires Inv(t) && CreateBinding(t, actor, clock, p, until).Ok? && p !in t.bindings
    requires !OwnerRole(t.roles, p.role)
    ensures DeleteBinding(CreateBinding(t, actor, clock, p, until).value, actor, later, p) == Ok(t)
  {
    var after := CreateBinding(t, actor, clock, p, until).value;
    CreateBindingIff(t, actor, clock, p, until);
    CreateBindingKeepsInv(t, actor, clock, p, until);
    DeleteBindingIff(after, actor, later, p);
    assert DeleteBinding(after, actor, later, p).value.bindings == t.bindings;
  }

  // ----- invitations -----

  predicate Distinct(inputs: seq<Assignment>) {
    forall j, k :: 0 <= j < k < |inputs| ==> inputs[j] != inputs[k]
  }

  /** An assignment can be offered: an active role that fits, an active store if it needs one,
      scopes the inviter may grant, and the owner role only by who may manage owners. */
  predicate Offerable(t: Team, actor: Acting, dbNow: int, a: Assignment) {
    && a.role in t.roles && t.roles[a.role].active && (t.roles[a.role].storeScoped <==> a.store.Some?)
    && (a.store.Some? ==> a.store.value in t.stores && t.stores[a.store.value])
    && MayGrantAll(t, actor.member, t.roles[a.role].scopes, dbNow)
    && (OwnerRole(t.roles, a.role) ==> actor.owners)
  }

  lemma OfferableIff(t: Team, actor: Acting, dbNow: int, a: Assignment)
    ensures AssignmentError(t, actor, dbNow, a).None? <==> Offerable(t, actor, dbNow, a)
  {
  }

  /** The address has an invitation that has not lapsed. */
  predicate Invited(t: Team, email: string, dbNow: int) {
    exists i :: i in t.invitations && t.invitations[i].email == email && t.invitations[i].status == PENDING
                && t.invitations[i].expires > dbNow
  }

  lemma InvitedIff(t: Team, email: string, dbNow: int)
    ensures PendingFor(ExpireStale(t.invitations, email, dbNow), email) <==> Invited(t, email, dbNow)
  {
    var swept := ExpireStale(t.invitations, email, dbNow);
    if Invited(t, email, dbNow) {
      var i :| i in t.invitations && t.invitations[i].email == email && t.invitations[i].status == PENDING
               && t.invitations[i].expires > dbNow;
      assert i in swept && swept[i].status == PENDING;
    }
  }

  function LifetimeOf(t: Team, inputs: seq<Assignment>, ttls: Lifetimes): int {
    if OwnerAmong(t.roles, inputs) then ttls.owner else ttls.ordinary
  }

  /** An active inviter, one to fifty distinct assignments that can be offered, no invitation
      of the address that has not lapsed, a fresh selector, an end in the future, and for the
      owner role an inviter who holds it. */
  predicate MayInvite(t: Team, actor: Acting, clock: Clock, first: NewToken, email: string, inputs: seq<Assignment>,
                      ttls: Lifetimes)
  {
    && WasActive(t, actor.member) && actor.member in t.userOf && t.userOf[actor.member] == actor.user
    && 1 <= |inputs| <= 50 && Distinct(inputs)
    && (forall k :: 0 <= k < |inputs| ==> Offerable(t, actor, clock.dbNow, inputs[k]))
    && !Invited(t, email, clock.dbNow) && first.id !in t.invitations
    && clock.dbNow < clock.now + LifetimeOf(t, inputs, ttls)
    && (forall k :: 0 <= k < |inputs| && OwnerRole(t.roles, inputs[k].role) ==>
          BoundAt(t, Place(actor.member, inputs[k].role, None), clock.dbNow))
  }

  lemma InviteIff(t: Team, actor: Acting, clock: Clock, first: NewToken, email: string, inputs: seq<Assignment>,
                  ttls: Lifetimes)
    ensures Invite(t, actor, clock, first, email, inputs, ttls).Ok?
       <==> MayInvite(t, actor, clock, first, email, inputs, ttls)
  {
    CheckAssignmentsIff(t, actor, clock.dbNow, inputs, 0, ttls.ordinary, ttls);
    assert inputs[0..] == inputs;
    forall k | 0 <= k < |inputs| ensures AssignmentError(t, actor, clock.dbNow, inputs[k]).None?
                                    <==> Offerable(t, actor, clock.dbNow, inputs[k]) {
      OfferableIff(t, actor, clock.dbNow, inputs[k]);
    }
    InvitedIff(t, email, clock.dbNow);
    OwnersInvitedIff(t, actor, clock.dbNow, inputs);
  }

  lemma OwnersInvitedIff(t: Team, actor: Acting, dbNow: int, inputs: seq<Assignment>)
    ensures WasActive(t, actor.member) ==>
      (OwnersInvited(t, actor, dbNow, set a | a in inputs) <==>
         forall k :: 0 <= k < |inputs| && OwnerRole(t.roles, inputs[k].role) ==>
           BoundAt(t, Place(actor.member, inputs[k].role, None), dbNow))
  {
    assert forall k :: 0 <= k < |inputs| ==> inputs[k] in inputs;
  }

  /** The invitation is for this address, secret and assignments, pending, and lives from now
      as long as its kind does; lapsed ones of the address are marked, nothing else changes. */
  lemma InviteEffect(t: Team, actor: Acting, clock: Clock, first: NewToken, email: string, inputs: seq<Assignment>,
                     ttls: Lifetimes)
    requires Invite(t, actor, clock, first, email, inputs, ttls).Ok?
    ensures var after := Invite(t, actor, clock, first, email, inputs, ttls).value;
      && after == t.(invitations := after.invitations)
      && after.invitations.Keys == t.invitations.Keys + {first.id} && first.id !in t.invitations
      && (forall i :: i in t.invitations ==>
            after.invitations[i] ==
              if t.invitations[i].email == email && t.invitations[i].status == PENDING
              then t.invitations[i].(status := EXPIRED) else t.invitations[i])
      && var row := after.invitations[first.id];
      && row.status == PENDING && row.email == email && row.secret == first.secret && row.created == clock.dbNow
      && row.expires == clock.now + LifetimeOf(t, inputs, ttls)
      && forall a :: a in row.granted <==> a in inputs
  {
    InviteIff(t, actor, clock, first, email, inputs, ttls);
    CheckAssignmentsIff(t, actor, clock.dbNow, inputs, 0, ttls.ordinary, ttls);
    assert inputs[0..] == inputs;
  }

  /** A pending invitation gets a new secret and a new end, even after the old one; one that
      names an owner only from someone who may manage owners. */
  lemma ResendEffect(t: Team, actor: Acting, clock: Clock, id: Uuid, secret: seq<int>, ttls: Lifetimes)
    requires id in t.invitations
    ensures var r, i := Resend(t, actor, clock, id, secret, ttls), t.invitations[id];
      var owner := NamesOwnerKey(t.roles, i.granted);
      var expires := clock.now + if owner then ttls.owner else ttls.ordinary;
      && (r.Ok? <==> i.status == PENDING && (owner ==> actor.owners) && i.created < expires)
      && (r.Ok? ==> r.value == t.(invitations := t.invitations[id := i.(secret := secret, expires := expires)]))
      && (i.status == PENDING && owner && !actor.owners ==> r == Err(InsufficientScope))
  {
  }

  /** A pending invitation that has not lapsed is revoked, and nothing else changes. */
  lemma RevokeEffect(t: Team, clock: Clock, id: Uuid)
    requires id in t.invitations
    ensures var r, i := Revoke(t, clock, id), t.invitations[id];
      && (r.Ok? <==> i.status == PENDING && clock.now < i.expires)
      && (r.Ok? ==> r.value == t.(invitations := t.invitations[id := i.(status := REVOKED)]))
      && (i.status == PENDING && clock.now >= i.expires ==> r == Err(InvitationExpired))
      && (i.status == ACCEPTED ==> r == Err(InvitationAccepted))
      && (i.status == REVOKED ==> r == Err(InvitationRevoked))
      && (i.status == EXPIRED ==> r == Err(InvitationExpired))
  {
  }

  // ----- acceptance -----

  /** Who may accept: a user with the address who is not blocked, or a newcomer to whom no
      user's address belongs. */
  predicate MayAnswer(t: Team, user: Uuid, anonymous: bool, email: string) {
    if anonymous then user !in t.emails && forall u :: u in t.emails ==> t.emails[u] != email
    else user in t.emails && t.emails[user] == email && user !in t.suspended
  }

  /** An invitation is accepted exactly with its secret, while pending and not lapsed by
      either clock, in an active organization, by someone who may; without a membership in force
      it needs a fresh id. */
  lemma AcceptIff(t: Team, clock: Clock, id: Uuid, secret: seq<int>, user: Uuid, anonymous: bool, member: Uuid)
    requires Inv(t)
    ensures Accept(t, clock, id, secret, user, anonymous, member).Ok? <==>
      && id in t.invitations && t.invitations[id].secret == secret && t.invitations[id].status == PENDING
      && clock.now < t.invitations[id].expires && clock.dbNow < t.invitations[id].expires
      && t.active && MayAnswer(t, user, anonymous, t.invitations[id].email)
      && (HasCurrent(t, user) || member !in t.status)
  {
    AcceptUnfolds(t, clock, id, secret, user, anonymous, member);
    if id in t.invitations {
      var i := t.invitations[id];
      AcceptorIff(t, user, anonymous, i.email);
      if Acceptor(t, user, anonymous, i.email).Ok? {
        var known := Acceptor(t, user, anonymous, i.email).value;
        assert PeopleOk(known) && (HasCurrent(known, user) <==> HasCurrent(t, user)) by { assert PeopleOk(t); }
        JoinIff(known, user, i.granted, member, clock.dbNow);
      }
    }
  }

  lemma AcceptUnfolds(t: Team, clock: Clock, id: Uuid, secret: seq<int>, user: Uuid, anonymous: bool, member: Uuid)
    ensures Accept(t, clock, id, secret, user, anonymous, member).Ok? <==>
      && id in t.invitations && t.invitations[id].secret == secret && t.invitations[id].status == PENDING
      && clock.now < t.invitations[id].expires && clock.dbNow < t.invitations[id].expires && t.active
      && var known := Acceptor(t, user, anonymous, t.invitations[id].email);
      && known.Ok? && (anonymous || user !in t.suspended)
      && Join(known.value, user, t.invitations[id].granted, member, clock.dbNow).Ok?
  {
  }

  lemma AcceptorIff(t: Team, user: Uuid, anonymous: bool, email: string)
    ensures MayAnswer(t, user, anonymous, email)
       <==> Acceptor(t, user, anonymous, email).Ok? && (anonymous || user !in t.suspended)
    ensures Acceptor(t, user, anonymous, email).Ok? ==>
      var known := Acceptor(t, user, anonymous, email).value; known == t.(emails := known.emails)
  {
  }

  lemma JoinIff(t: Team, user: Uuid, granted: set<Assignment>, member: Uuid, dbNow: int)
    requires PeopleOk(t)
    ensures Join(t, user, granted, member, dbNow).Ok? <==> HasCurrent(t, user) || member !in t.status
  {
    if HasCurrent(t, user) {
      var m :| m in t.status && t.status[m] != O.REMOVED && m in t.userOf && t.userOf[m] == user;
      LatestStands(t, user, m);
    } else {
      var latest := Latest(t.joined, t.userOf, user);
      assert latest.Some? ==> t.status[latest.value] == O.REMOVED;
    }
  }

  /** A blocked user with the right invitation and address is refused. */
  lemma BlockedIsRefused(t: Team, clock: Clock, id: Uuid, user: Uuid, member: Uuid)
    requires id in t.invitations && t.invitations[id].status == PENDING && clock.now < t.invitations[id].expires
    requires t.active && user in t.emails && t.emails[user] == t.invitations[id].email && user in t.suspended
    ensures Accept(t, clock, id, t.invitations[id].secret, user, false, member) == Err(UserBlocked)
  {
  }

  /** What was sent can be accepted by whoever it was sent to, with the secret that was sent,
      until it lapses. */
  lemma InvitationAdmits(t: Team, actor: Acting, clock: Clock, first: NewToken, email: string, inputs: seq<Assignment>,
                         ttls: Lifetimes, later: Clock, secret: seq<int>, user: Uuid, anonymous: bool, member: Uuid)
    requires Inv(t) && t.active && Invite(t, actor, clock, first, email, inputs, ttls).Ok? && member !in t.status
    ensures var after, deadline := Invite(t, actor, clock, first, email, inputs, ttls).value,
                                   clock.now + LifetimeOf(t, inputs, ttls);
      Accept(after, later, first.id, secret, user, anonymous, member).Ok? <==>
        secret == first.secret && MayAnswer(t, user, anonymous, email) && later.now < deadline && later.dbNow < deadline
  {
    var after := Invite(t, actor, clock, first, email, inputs, ttls).value;
    InviteEffect(t, actor, clock, first, email, inputs, ttls);
    InviteKeepsInv(t, actor, clock, first, email, inputs, ttls);
    AcceptIff(after, later, first.id, secret, user, anonymous, member);
  }

  // ----- owners answer to owners -----

  /** The step changes the status of an owner or any binding to the owner role. */
  ghost predicate TouchesOwner(before: Team, after: Team) {
    || (exists m :: m in before.status && IsOwner(before, m)
                    && (m !in after.status || after.status[m] != before.status[m]))
    || (exists p: Place :: OwnerRole(before.roles, p.role)
                           && (p in before.bindings || p in after.bindings)
                           && !(p in before.bindings && p in after.bindings
                                && before.bindings[p] == after.bindings[p]))
  }

  /** The step issues or renews an invitation to the owner role. */
  ghost predicate InvitesOwner(before: Team, after: Team) {
    exists i, a :: i in after.invitations && a in after.invitations[i].granted && OwnerRole(after.roles, a.role)
                   && (i !in before.invitations || after.invitations[i].secret != before.invitations[i].secret
                       || after.invitations[i].expires != before.invitations[i].expires)
  }

  /** Who gives the command, where a member does. */
  function ActorOf(op: Op): Option<Acting> {
    match op
    case SetStatus(actor, _, _, _) => Some(actor)
    case Unbind(actor, _, _) => Some(actor)
    case Bind(actor, _, _, _) => Some(actor)
    case SendInvitation(actor, _, _, _, _, _) => Some(actor)
    case ResendInvitation(actor, _, _, _, _) => Some(actor)
    case _ => None
  }

  lemma StatusNeedsOwners(t: Team, actor: Acting, clock: Clock, m: Uuid, to: O.Status)
    requires Inv(t) && UpdateStatus(t, actor, clock, m, to).Ok?
    requires TouchesOwner(t, UpdateStatus(t, actor, clock, m, to).value)
    ensures actor.owners
  {
    UpdateStatusIff(t, actor, clock, m, to);
  }

  lemma UnbindNeedsOwners(t: Team, actor: Acting, clock: Clock, p: Place)
    requires Inv(t) && DeleteBinding(t, actor, clock, p).Ok?
    requires TouchesOwner(t, DeleteBinding(t, actor, clock, p).value)
    ensures actor.owners
  {
    DeleteBindingIff(t, actor, clock, p);
  }

  lemma BindNeedsOwners(t: Team, actor: Acting, clock: Clock, p: Place, until: Option<int>)
    requires CreateBinding(t, actor, clock, p, until).Ok?
    requires TouchesOwner(t, CreateBinding(t, actor, clock, p, until).value)
    ensures actor.owners
  {
    CreateBindingIff(t, actor, clock, p, until);
  }

  lemma ResendNeedsOwners(t: Team, actor: Acting, clock: Clock, id: Uuid, secret: seq<int>, ttls: Lifetimes)
    requires Inv(t) && Resend(t, actor, clock, id, secret, ttls).Ok?
    requires var after := Resend(t, actor, clock, id, secret, ttls).value;
      TouchesOwner(t, after) || InvitesOwner(t, after)
    ensures actor.owners
  {
    ResendEffect(t, actor, clock, id, secret, ttls);
  }

  lemma OwnerInvitationNeedsOwners(t: Team, actor: Acting, clock: Clock, first: NewToken, email: string,
                                   inputs: seq<Assignment>, ttls: Lifetimes)
    requires Invite(t, actor, clock, first, email, inputs, ttls).Ok?
    requires var after := Invite(t, actor, clock, first, email, inputs, ttls).value;
      TouchesOwner(t, after) || InvitesOwner(t, after)
    ensures actor.owners
  {
    var after := Invite(t, actor, clock, first, email, inputs, ttls).value;
    InviteEffect(t, actor, clock, first, email, inputs, ttls);
    assert MayInvite(t, actor, clock, first, email, inputs, ttls) by {
      InviteIff(t, actor, clock, first, email, inputs, ttls);
    }
    var a := OwnerAssigned(t, after, first.id, inputs);
    var k :| 0 <= k < |inputs| && inputs[k] == a;
    assert Offerable(t, actor, clock.dbNow, inputs[k]);
  }

  /** If only one invitation was issued, an invited owner is among its assignments. */
  lemma OwnerAssigned(t: Team, after: Team, id: Uuid, inputs: seq<Assignment>) returns (a: Assignment)
    requires after == t.(invitations := after.invitations) && after.invitations.Keys == t.invitations.Keys + {id}
    requires forall i :: i in t.invitations ==>
      after.invitations[i] == t.invitations[i].(status := after.invitations[i].status)
    requires forall b :: b in after.invitations[id].granted <==> b in inputs
    requires TouchesOwner(t, after) || InvitesOwner(t, after)
    ensures a in inputs && OwnerRole(t.roles, a.role)
  {
    var i, b :| i in after.invitations && b in after.invitations[i].granted && OwnerRole(after.roles, b.role)
                && (i !in t.invitations || after.invitations[i].secret != t.invitations[i].secret
                    || after.invitations[i].expires != t.invitations[i].expires);
    a := b;
  }

  lemma NothingTouched(t: Team)
    ensures !TouchesOwner(t, t) && !InvitesOwner(t, t)
  {
  }

  /** Only invitations change an invitation. */
  lemma RightsInviteNobody(t: Team, op: Op)
    requires op.SetStatus? || op.Unbind? || op.Bind?
    ensures !InvitesOwner(t, Step(t, op))
  {
    assert Step(t, op).invitations == t.invitations;
  }

  /** Whatever a member's command changes about an owner, a binding to the owner role or an
      invitation to it, that member may manage owners. */
  lemma OwnersAnswerToOwners(t: Team, op: Op)
    requires Inv(t) && ActorOf(op).Some?
    requires TouchesOwner(t, Step(t, op)) || InvitesOwner(t, Step(t, op))
    ensures ActorOf(op).value.owners
  {
    NothingTouched(t);
    assert Perform(t, op).Ok?;
    if op.SetStatus? || op.Unbind? || op.Bind? { RightsInviteNobody(t, op); }
    match op
    case SetStatus(actor, clock, m, to) => StatusNeedsOwners(t, actor, clock, m, to);
    case Unbind(actor, clock, place) => UnbindNeedsOwners(t, actor, clock, place);
    case Bind(actor, clock, place, until) => BindNeedsOwners(t, actor, clock, place, until);
    case SendInvitation(actor, clock, first, email, inputs, ttls) =>
      OwnerInvitationNeedsOwners(t, actor, clock, first, email, inputs, ttls);
    case ResendInvitation(actor, clock, id, secret, ttls) => ResendNeedsOwners(t, actor, clock, id, secret, ttls);
    case _ =>
  }

  /** An acceptance makes an owner only by an invitation to the owner role. */
  lemma OwnersAreInvited(t: Team, clock: Clock, id: Uuid, secret: seq<int>, user: Uuid, anonymous: bool, member: Uuid,
                         m: Uuid)
    requires Inv(t) && Accept(t, clock, id, secret, user, anonymous, member).Ok?
    requires IsOwner(Accept(t, clock, id, secret, user, anonymous, member).value, m) && !IsOwner(t, m)
    ensures exists a :: a in t.invitations[id].granted && OwnerRole(t.roles, a.role)
  {
    var after := Accept(t, clock, id, secret, user, anonymous, member).value;
    AcceptanceEffect(t, clock, id, secret, user, anonymous, member);
    var b :| b in Org(after).bindings && b.0 == m && O.IsOwnerRole(Org(after), b.1);
    var p := Place(m, b.1, None);
    assert b == (m, b.1) && p in after.bindings;
    OwnerPlace(t, p);
    assert Assignment(b.1, None) in t.invitations[id].granted;
  }

  lemma OwnerPlace(t: Team, p: Place)
    ensures p in t.bindings && p.store.None? && O.IsOwnerRole(Org(t), p.role) ==> IsOwner(t, p.member)
  {
    if p in t.bindings && p.store.None? && O.IsOwnerRole(Org(t), p.role) {
      assert p == Place(p.member, p.role, None);
      var b := (p.member, p.role);
      assert b in Org(t).bindings && b.0 == p.member && O.IsOwnerRole(Org(t), b.1);
    }
  }
}
