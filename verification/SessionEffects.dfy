/**
 What creating, rotating and revoking sessions does, told by the tables before and after,
 and what it adds up to: a refresh token that was handed out rotates until it is used, its
 session ends or falls idle, and an ended session's tokens never do.
 */
module SessionEffects {
  import opened Results
  import opened Identifiers
  import opened Credentials
  import opened RefreshSessions

  /** One more token and no other change to the tokens but, for a rotation, to its parent. */
  predicate TokenAdded(before: Db, after: Db, token: NewToken, session: Uuid, parent: Option<Uuid>) {
    && token.id !in before.tokens && after.tokens.Keys == before.tokens.Keys + {token.id}
    && session in after.sessions
    && var row := after.tokens[token.id];
    && row.session == session && row.parent == parent && row.replacedBy == None && row.secret == token.secret
    && row.expires == after.sessions[session].absolute && Usable(row)
    && forall t :: t in before.tokens && Some(t) != parent ==> after.tokens[t] == before.tokens[t]
  }

  /** Creation goes through exactly for a known user in a context of their own, with a fresh
      session and token, and deadlines ahead of the database's clock. */
  lemma CreationIff(db: Db, clock: Clock, id: Uuid, user: Uuid, member: Option<(Uuid, Uuid)>, idleTtl: int,
                    absoluteTtl: int, first: NewToken)
    ensures NewSession(db, clock, id, user, member, idleTtl, absoluteTtl, first).Ok? <==>
      && user in db.users && ContextOk(db, user, member) && id !in db.sessions
      && first.id !in db.tokens && !SecretUsed(db.tokens, first.secret)
      && clock.dbNow < clock.now + idleTtl && clock.dbNow < clock.now + absoluteTtl
  {
  }

  /** A new session is live, of its user and context, and holds one usable token: its deadline
      is fixed, its idle deadline the earlier of the two. */
  lemma CreationEffect(db: Db, clock: Clock, id: Uuid, user: Uuid, member: Option<(Uuid, Uuid)>, idleTtl: int,
                       absoluteTtl: int, first: NewToken)
    requires NewSession(db, clock, id, user, member, idleTtl, absoluteTtl, first).Ok?
    ensures var after := NewSession(db, clock, id, user, member, idleTtl, absoluteTtl, first).value;
      && after == db.(sessions := after.sessions, tokens := after.tokens)
      && after.sessions.Keys == db.sessions.Keys + {id}
      && (forall s :: s in db.sessions ==> after.sessions[s] == db.sessions[s])
      && var row := after.sessions[id];
      && row.user == user && row.status == LIVE && row.member == member && row.created == clock.dbNow
      && row.absolute == clock.now + absoluteTtl
      && row.idle <= clock.now + idleTtl && row.idle <= row.absolute
      && (row.idle == clock.now + idleTtl || row.idle == row.absolute)
      && TokenAdded(db, after, first, id, None)
  {
  }

  /** A rotation adds the child to the parent's session with the session's fixed deadline,
      spends the parent in its favour, moves the idle deadline and changes nothing else. */
  lemma RotationEffect(db: Db, clock: Clock, selector: Uuid, secret: seq<int>, idleTtl: int, child: NewToken)
    requires Rotate(db, clock, selector, secret, idleTtl, child).Rotated?
    ensures var after := Rotate(db, clock, selector, secret, idleTtl, child).db;
      && selector in db.tokens && db.tokens[selector].session in db.sessions
      && var session := db.tokens[selector].session;
      && after == db.(sessions := after.sessions, tokens := after.tokens)
      && after.sessions.Keys == db.sessions.Keys
      && (forall s :: s in db.sessions && s != session ==> after.sessions[s] == db.sessions[s])
      && after.sessions[session] == db.sessions[session].(idle := after.sessions[session].idle)
      && after.sessions[session].idle == Min(clock.now + idleTtl, db.sessions[session].absolute)
      && TokenAdded(db, after, child, session, Some(selector))
      && after.tokens[selector] == db.tokens[selector].(consumed := true, replacedBy := Some(child.id))
  {
  }

  // ----- a token that was handed out -----

  /** The token is unused and unrevoked, its user active, its session not idle by either
      clock, the next token fresh and the next deadline after the session's creation. */
  predicate MayRotate(db: Db, clock: Clock, t: Uuid, idleTtl: int, next: NewToken) {
    && t in db.tokens && Usable(db.tokens[t]) && db.tokens[t].session in db.sessions
    && var s := db.sessions[db.tokens[t].session];
    && s.user in db.users && db.users[s.user] == ACTIVE && clock.now <= s.idle && clock.dbNow < s.idle
    && s.created < clock.now + idleTtl && s.created < s.absolute
    && next.id !in db.tokens && !SecretUsed(db.tokens, next.secret)
  }

  lemma RotatesIff(db: Db, clock: Clock, t: Uuid, secret: seq<int>, idleTtl: int, next: NewToken)
    requires Inv(db) && t in db.tokens
    ensures Rotate(db, clock, t, secret, idleTtl, next).Rotated?
       <==> db.tokens[t].secret == secret && MayRotate(db, clock, t, idleTtl, next)
  {
    assert TokenOk(db, t);
    assert SessionOk(db, db.tokens[t].session);
    RotationSucceedsIff(db, clock, t, secret, idleTtl, next);
  }

  /** In every later state of any run, a token that was handed out is there with its secret
      and rotates exactly while it may. */
  lemma HandedOutRotatesIff(after: Db, token: NewToken, ops: seq<Op>, later: Clock, idleTtl: int, next: NewToken)
    requires Inv(after) && token.id in after.tokens && after.tokens[token.id].secret == token.secret
    ensures var state := Exec(after, ops);
      && token.id in state.tokens && state.tokens[token.id].session == after.tokens[token.id].session
      && (Rotate(state, later, token.id, token.secret, idleTtl, next).Rotated?
          <==> MayRotate(state, later, token.id, idleTtl, next))
  {
    var state := Exec(after, ops);
    RunKeepsRows(after, ops);
    EveryRunKeepsInv(after, ops);
    assert TokenKept(after, state, token.id);
    RotatesIff(state, later, token.id, token.secret, idleTtl, next);
  }

  /** What a rotation hands out rotates in turn exactly while the user is active and the new
      idle deadline has not passed, with a fresh child. */
  lemma RotatedTokenRotates(db: Db, clock: Clock, selector: Uuid, secret: seq<int>, idleTtl: int, child: NewToken,
                            later: Clock, laterTtl: int, next: NewToken)
    requires Inv(db) && Rotate(db, clock, selector, secret, idleTtl, child).Rotated?
    ensures var after, s := Rotate(db, clock, selector, secret, idleTtl, child).db,
                            db.sessions[db.tokens[selector].session];
      var deadline := Min(clock.now + idleTtl, s.absolute);
      Rotate(after, later, child.id, child.secret, laterTtl, next).Rotated? <==>
        && db.users[s.user] == ACTIVE && later.now <= deadline && later.dbNow < deadline
        && s.created < later.now + laterTtl
        && next.id !in after.tokens && !SecretUsed(after.tokens, next.secret)
  {
    var after := Rotate(db, clock, selector, secret, idleTtl, child).db;
    var session := db.tokens[selector].session;
    RotateKeepsInv(db, clock, selector, secret, idleTtl, child);
    RotationEffect(db, clock, selector, secret, idleTtl, child);
    assert db.sessions[session].user in db.users && db.sessions[session].created < db.sessions[session].absolute by {
      RotatesIff(db, clock, selector, secret, idleTtl, child);
    }
    ChildMayRotateIff(after, session, child.id, later, laterTtl, next);
    RotatesIff(after, later, child.id, child.secret, laterTtl, next);
  }

  lemma ChildMayRotateIff(after: Db, session: Uuid, child: Uuid, later: Clock, laterTtl: int, next: NewToken)
    requires child in after.tokens && Usable(after.tokens[child]) && after.tokens[child].session == session
    requires session in after.sessions && after.sessions[session].user in after.users
    requires after.sessions[session].created < after.sessions[session].absolute
    ensures var s := after.sessions[session];
      MayRotate(after, later, child, laterTtl, next) <==>
        && after.users[s.user] == ACTIVE && later.now <= s.idle && later.dbNow < s.idle
        && s.created < later.now + laterTtl && next.id !in after.tokens && !SecretUsed(after.tokens, next.secret)
  {
  }

  /** So does the first token of a new session. */
  lemma FirstTokenRotates(db: Db, clock: Clock, id: Uuid, user: Uuid, member: Option<(Uuid, Uuid)>, idleTtl: int,
                          absoluteTtl: int, first: NewToken, later: Clock, laterTtl: int, next: NewToken)
    requires Inv(db) && NewSession(db, clock, id, user, member, idleTtl, absoluteTtl, first).Ok?
    ensures var after := NewSession(db, clock, id, user, member, idleTtl, absoluteTtl, first).value;
      var deadline := clock.now + Min(idleTtl, absoluteTtl);
      Rotate(after, later, first.id, first.secret, laterTtl, next).Rotated? <==>
        && db.users[user] == ACTIVE && later.now <= deadline && later.dbNow < deadline
        && clock.dbNow < later.now + laterTtl
        && next.id !in after.tokens && !SecretUsed(after.tokens, next.secret)
  {
    var after := NewSession(db, clock, id, user, member, idleTtl, absoluteTtl, first).value;
    CreationIff(db, clock, id, user, member, idleTtl, absoluteTtl, first);
    CreationEffect(db, clock, id, user, member, idleTtl, absoluteTtl, first);
    CreateKeepsInv(db, clock, id, user, member, idleTtl, absoluteTtl, first);
    RotatesIff(after, later, first.id, first.secret, laterTtl, next);
  }

  // ----- why a rotation is refused -----

  /** In a good state the refusals for a session's status never occur, because its tokens are
      revoked with it; each other one means what it says. */
  lemma RefusalsMean(db: Db, clock: Clock, selector: Uuid, idleTtl: int, child: NewToken)
    requires Inv(db) && selector in db.tokens
    ensures var t := db.tokens[selector];
      var s := db.sessions[t.session];
      var r := Rotate(db, clock, selector, t.secret, idleTtl, child);
      && r != Refused(SessionNotFound) && r != Refused(SessionRevoked) && r != Refused(SessionCompromised)
      && (r == Refused(RefreshTokenInvalid) <==> t.revoked)
      && (r == Refused(RefreshTokenExpired) <==> !t.revoked && clock.now > s.absolute)
      && (r == Refused(UserSuspended) <==> Usable(t) && clock.now <= s.absolute && db.users[s.user] == SUSPENDED)
      && (r == Refused(UserDisabled) <==> Usable(t) && clock.now <= s.absolute && db.users[s.user] == DISABLED)
      && (r == Refused(SessionExpired) <==>
            Usable(t) && s.idle < clock.now <= s.absolute && db.users[s.user] == ACTIVE)
  {
    assert TokenOk(db, selector);
    assert SessionOk(db, db.tokens[selector].session) && HasChain(db.tokens, db.tokens[selector].session);
    if !db.tokens[selector].consumed { UnconsumedHasNoChild(db, selector); }
  }

  /** In any state at all, an unused token that is still good although its session has ended
      is refused for the way it ended. */
  lemma EndedSessionIsReported(db: Db, clock: Clock, selector: Uuid, idleTtl: int, child: NewToken)
    requires selector in db.tokens && Usable(db.tokens[selector]) && clock.now <= db.tokens[selector].expires
    requires db.tokens[selector].session in db.sessions
    requires db.sessions[db.tokens[selector].session].user in db.users
    ensures var t := db.tokens[selector];
      var status, r := db.sessions[t.session].status, Rotate(db, clock, selector, t.secret, idleTtl, child);
      && (status == REVOKED ==> r == Refused(SessionRevoked))
      && (status == COMPROMISED ==> r == Refused(SessionCompromised))
      && (status == RefreshSessions.EXPIRED ==> r == Refused(SessionError.SessionExpired))
  {
  }

  /** A wrong secret or an unknown selector is refused as invalid and changes nothing. */
  lemma WrongSecretIsRefused(db: Db, clock: Clock, selector: Uuid, secret: seq<int>, idleTtl: int, child: NewToken)
    requires selector !in db.tokens || db.tokens[selector].secret != secret
    ensures Rotate(db, clock, selector, secret, idleTtl, child) == Refused(RefreshTokenInvalid)
    ensures Step(db, RotateToken(clock, selector, secret, idleTtl, child)) == db
  {
  }

  // ----- ending sessions -----

  /** The live sessions among `ended` become REVOKED, the tokens of those in `revoked` are
      revoked, and nothing else changes. */
  ghost predicate Ended(before: Db, after: Db, ended: iset<Uuid>, revoked: iset<Uuid>) {
    && after == before.(sessions := after.sessions, tokens := after.tokens)
    && after.sessions.Keys == before.sessions.Keys && after.tokens.Keys == before.tokens.Keys
    && (forall s :: s in before.sessions ==>
          after.sessions[s] == if s in ended && before.sessions[s].status == LIVE
                               then before.sessions[s].(status := REVOKED) else before.sessions[s])
    && (forall t :: t in before.tokens ==>
          after.tokens[t] == if before.tokens[t].session in revoked then before.tokens[t].(revoked := true)
                             else before.tokens[t])
  }

  /** Only the owner revokes a session; it ends if live, its tokens are revoked, no others. */
  lemma RevocationEffect(db: Db, actor: Uuid, session: Uuid)
    ensures var r := RevokeOne(db, actor, session);
      && (r.Ok? <==> session in db.sessions && db.sessions[session].user == actor)
      && (r.Err? ==> r == Err(SessionNotFound))
      && (r.Ok? ==> Ended(db, r.value, iset{session}, iset{session}))
  {
  }

  /** The bulk revocations end the sessions of the user, of the membership selected in them,
      and the live ones of the organization, with their tokens, and no others. */
  lemma BulkRevocationEffect(db: Db, user: Uuid, org: Uuid, membership: Uuid)
    ensures var own := iset s | s in db.sessions && db.sessions[s].user == user;
      Ended(db, Step(db, RevokeAllOfUser(user)), own, own)
    ensures var own := iset s | s in db.sessions && db.sessions[s].member == Some((org, membership));
      Ended(db, Step(db, RevokeMembership(org, membership)), own, own)
    ensures var own := iset s | s in db.sessions && db.sessions[s].status == LIVE && db.sessions[s].member.Some?
                             && db.sessions[s].member.value.0 == org;
      Ended(db, Step(db, ArchiveOrganization(org)), own, own)
  {
  }

  /** After a logout, a revocation of all a user's sessions, or of a membership's or an
      organization's, no token of an ended session is accepted in any later state. */
  lemma EndedTokensAreRefused(db: Db, after: Db, ended: iset<Uuid>, ops: seq<Op>, clock: Clock, selector: Uuid,
                              secret: seq<int>, idleTtl: int, child: NewToken)
    requires Inv(db) && Inv(after) && Ended(db, after, ended, ended)
    requires selector in Exec(after, ops).tokens && Exec(after, ops).tokens[selector].session in ended
    requires Exec(after, ops).tokens[selector].session in db.sessions
    ensures Rotate(Exec(after, ops), clock, selector, secret, idleTtl, child) == Refused(RefreshTokenInvalid)
  {
    EndedForGood(after, Exec(after, ops).tokens[selector].session, ops, clock, selector, secret, idleTtl, child);
  }

  lemma OthersMayAsBefore(db: Db, after: Db, ended: iset<Uuid>, clock: Clock, selector: Uuid, idleTtl: int,
                          child: NewToken)
    requires Ended(db, after, ended, ended) && selector in db.tokens && db.tokens[selector].session !in ended
    ensures after.tokens[selector] == db.tokens[selector]
    ensures MayRotate(after, clock, selector, idleTtl, child) <==> MayRotate(db, clock, selector, idleTtl, child)
  {
    SameSecretsUsed(db, after, child.secret);
  }

  /** Tokens of sessions that were not ended are as good as before. */
  lemma OthersRotateAsBefore(db: Db, after: Db, ended: iset<Uuid>, clock: Clock, selector: Uuid, secret: seq<int>,
                             idleTtl: int, child: NewToken)
    requires Inv(db) && Inv(after) && Ended(db, after, ended, ended)
    requires selector in db.tokens && db.tokens[selector].session !in ended
    ensures Rotate(after, clock, selector, secret, idleTtl, child).Rotated?
       <==> Rotate(db, clock, selector, secret, idleTtl, child).Rotated?
  {
    RotatesIff(db, clock, selector, secret, idleTtl, child);
    RotatesIff(after, clock, selector, secret, idleTtl, child);
    OthersMayAsBefore(db, after, ended, clock, selector, idleTtl, child);
  }

  lemma SameSecretsUsed(db: Db, after: Db, secret: seq<int>)
    requires after.tokens.Keys == db.tokens.Keys
    requires forall t :: t in db.tokens ==> after.tokens[t].secret == db.tokens[t].secret
    ensures SecretUsed(after.tokens, secret) <==> SecretUsed(db.tokens, secret)
  {
  }

  // ----- touching and switching -----

  /** A session that its user may still use: live, and before both its deadlines. */
  predicate InUse(db: Db, clock: Clock, session: Uuid, user: Uuid) {
    && session in db.sessions && db.sessions[session].user == user && db.sessions[session].status == LIVE
    && clock.dbNow < db.sessions[session].idle && clock.dbNow < db.sessions[session].absolute
  }

  /** Touching moves the idle deadline of a session in use, never past the fixed one. */
  lemma TouchEffect(db: Db, clock: Clock, session: Uuid, user: Uuid, idle: int)
    ensures var r := TouchSession(db, clock, session, user, idle);
      && (r.Some? <==> InUse(db, clock, session, user)
                       && db.sessions[session].created < Min(idle, db.sessions[session].absolute))
      && (r.Some? ==>
            var moved := db.sessions[session].(idle := Min(idle, db.sessions[session].absolute));
            r.value == db.(sessions := db.sessions[session := moved]))
  {
  }

  /** Switching selects a membership of the session's own user in a session in use. */
  lemma SwitchEffect(db: Db, clock: Clock, session: Uuid, user: Uuid, member: Option<(Uuid, Uuid)>)
    ensures var r := SwitchContext(db, clock, session, user, member);
      && (r.Some? <==> InUse(db, clock, session, user)
                       && (member.Some? ==> member.value.1 in db.memberUser && db.memberUser[member.value.1] == user))
      && (r.Some? ==> r.value == db.(sessions := db.sessions[session := db.sessions[session].(member := member)]))
  {
  }
}
