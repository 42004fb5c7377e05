/**
 What each password, token and login command needs and what it does, told by the tables
 before and after, and what these add up to over runs: a token that was handed out works
 until it is spent or lapses.
 */
module AuthEffects {
  import opened Results
  import opened Identifiers
  import opened Credentials
  import opened AuthTokens

  // ----- login -----

  /** With the right password, what keeps a user out is reported as what it is. */
  lemma StatusIsReported(db: Db, login: Uuid, user: Uuid, required: bool, accepted: bool, hash: Hash)
    requires user in db.users && db.users[user].password.Some?
    ensures var status, r := db.users[user].status, LoginRead(db, login, user, true, required);
      && (r == Err(UserSuspended) <==> status == SUSPENDED) && (r == Err(UserDisabled) <==> status == DISABLED)
      && (r == Err(EmailNotVerified) <==> status == ACTIVE && required && !db.users[user].verified)
      && (Change(db, user, true, accepted, hash) == Err(UserSuspended) <==> status == SUSPENDED)
      && (Change(db, user, true, accepted, hash) == Err(UserDisabled) <==> status == DISABLED)
      && (Change(db, user, true, accepted, hash) == Err(PasswordRejected) <==> status == ACTIVE && !accepted)
    ensures db.users[user].status == ACTIVE ==> Change(db, user, false, accepted, hash) == Err(InvalidCredentials)
  {
  }

  /** The right password of a user who may log in opens a session, if nothing comes between. */
  lemma LoginWorks(db: Db, login: Uuid, user: Uuid, required: bool, session: Uuid)
    requires MayLogIn(db, user, required) && session !in db.sessions
    ensures LoginRead(db, login, user, true, required).Ok?
    ensures LoginCommit(LoginRead(db, login, user, true, required).value, login, required, session).Ok?
  {
    LoginReadIff(db, login, user, true, required);
    LoginCommitIff(LoginRead(db, login, user, true, required).value, login, required, session);
  }

  // ----- handing out tokens -----

  /** One new open token; the user's open ones of its purpose are closed, nothing else changes. */
  predicate Issued(before: Db, after: Db, first: NewToken, user: Uuid, purpose: Purpose, expires: int) {
    && after == before.(tokens := after.tokens)
    && first.id !in before.tokens && after.tokens.Keys == before.tokens.Keys + {first.id}
    && Open(after, first.id, user, purpose)
    && after.tokens[first.id].secret == first.secret && after.tokens[first.id].expires == expires
    && forall t :: t in before.tokens ==>
         after.tokens[t] == if Open(before, t, user, purpose) then before.tokens[t].(consumed := true)
                            else before.tokens[t]
  }

  /** A reset token is handed out exactly to a known, active user with a password. */
  lemma ForgotEffect(db: Db, clock: Clock, user: Uuid, known: bool, first: NewToken)
    ensures var r, eligible := Forgot(db, clock, user, known, first), known && MayLogIn(db, user, false);
      && (!eligible ==> r == Ok(db))
      && (eligible ==> (r.Ok? <==> first.id !in db.tokens && clock.dbNow < clock.now + 1800))
      && (eligible && r.Ok? ==> Issued(db, r.value, first, user, PASSWORD_RESET, clock.now + 1800))
  {
  }

  /** A verification token is handed out exactly to a known, active, unverified user. */
  lemma ResendEffect(db: Db, clock: Clock, user: Uuid, known: bool, first: NewToken)
    ensures var r := Resend(db, clock, user, known, first);
      var eligible := known && user in db.users && db.users[user].status == ACTIVE && !db.users[user].verified;
      && (!eligible ==> r == Ok(db))
      && (eligible ==> (r.Ok? <==> first.id !in db.tokens && clock.dbNow < clock.now + 86400))
      && (eligible && r.Ok? ==> Issued(db, r.value, first, user, EMAIL_VERIFICATION, clock.now + 86400))
  {
  }

  /** Registration creates an active user with the password's first version, verified
      exactly if that is not asked for, and hands out a verification token if it is. */
  lemma RegisterEffect(db: Db, clock: Clock, user: Uuid, hash: Hash, required: bool, first: NewToken)
    requires Inv(db)
    ensures var r := Register(db, clock, user, hash, required, first);
      && (r.Ok? <==> user !in db.users
                     && (required ==> first.id !in db.tokens && clock.dbNow < clock.now + 86400))
      && (r.Ok? ==> var created := db.(users := r.value.users);
            && r.value.users == db.users[user := User(ACTIVE, Some(hash), 1, !required)]
            && (if required then Issued(created, r.value, first, user, EMAIL_VERIFICATION, clock.now + 86400)
                else r.value == created))
  {
  }

  // ----- what the tokens are good for -----

  /** An open token of the purpose with its secret, before it lapses by either clock. */
  predicate Presented(db: Db, clock: Clock, selector: Uuid, secret: seq<int>, purpose: Purpose) {
    && selector in db.tokens && db.tokens[selector].purpose == purpose && !db.tokens[selector].consumed
    && db.tokens[selector].secret == secret
    && clock.now < db.tokens[selector].expires && clock.dbNow < db.tokens[selector].expires
  }

  /** The new password and version; the user's reset tokens and sessions end, nothing else changes. */
  predicate PasswordReplaced(before: Db, after: Db, user: Uuid, hash: Hash)
    requires user in before.users
  {
    && after == before.(users := after.users, tokens := after.tokens, sessions := after.sessions)
    && after.users.Keys == before.users.Keys && after.tokens.Keys == before.tokens.Keys
    && after.sessions.Keys == before.sessions.Keys
    && after.users[user].password == Some(hash) && after.users[user].version == before.users[user].version + 1
    && after.users[user].status == before.users[user].status
    && after.users[user].verified == before.users[user].verified
    && (forall u :: u in before.users && u != user ==> after.users[u] == before.users[u])
    && (forall t :: t in before.tokens ==>
          after.tokens[t] == if Open(before, t, user, PASSWORD_RESET) then before.tokens[t].(consumed := true)
                             else before.tokens[t])
    && (forall s :: s in before.sessions ==>
          after.sessions[s] == if before.sessions[s].user == user then before.sessions[s].(live := false)
                               else before.sessions[s])
  }

  /** A reset goes through exactly with a presented reset token of an active user with a
      password and an acceptable new one. */
  lemma ResetIff(db: Db, clock: Clock, selector: Uuid, secret: seq<int>, accepted: bool, hash: Hash)
    ensures var r := Reset(db, clock, selector, secret, accepted, hash);
      && (r.Ok? <==> Presented(db, clock, selector, secret, PASSWORD_RESET) && accepted
                     && MayLogIn(db, db.tokens[selector].user, false))
      && (r.Ok? ==> PasswordReplaced(db, r.value, db.tokens[selector].user, hash))
  {
  }

  /** A change goes through exactly for an active user with the right current password and
      an acceptable new one. */
  lemma ChangeIff(db: Db, user: Uuid, matches: bool, accepted: bool, hash: Hash)
    ensures var r := Change(db, user, matches, accepted, hash);
      && (r.Ok? <==> MayLogIn(db, user, false) && matches && accepted)
      && (r.Ok? ==> PasswordReplaced(db, r.value, user, hash))
  {
  }

  /** The user's address is verified by this token; their other verification tokens close. */
  predicate AddressVerified(before: Db, after: Db, user: Uuid, selector: Uuid)
    requires user in before.users
  {
    && after == before.(users := after.users, tokens := after.tokens, verifiedBy := after.verifiedBy)
    && after.verifiedBy == before.verifiedBy + {selector}
    && after.users == before.users[user := before.users[user].(verified := true)]
    && after.tokens.Keys == before.tokens.Keys
    && forall t :: t in before.tokens ==>
         after.tokens[t] == if Open(before, t, user, EMAIL_VERIFICATION) then before.tokens[t].(consumed := true)
                            else before.tokens[t]
  }

  /** A verification goes through exactly with a presented token of an active user, or again
      with the one that verified the address; a right token that has lapsed is reported so. */
  lemma VerifyIff(db: Db, clock: Clock, selector: Uuid, secret: seq<int>)
    requires Inv(db)
    ensures var r := Verify(db, clock, selector, secret);
      var used := selector in db.verifiedBy && db.tokens[selector].secret == secret;
      var now := Presented(db, clock, selector, secret, EMAIL_VERIFICATION)
                   && db.users[db.tokens[selector].user].status == ACTIVE;
      && (r.Ok? <==> used || now) && (used ==> r == Ok(db))
      && (now ==> AddressVerified(db, r.value, db.tokens[selector].user, selector))
  {
    if selector in db.verifiedBy { assert VerifierOk(db, selector); }
  }

  /** The right secret of an open token that has lapsed is answered with that, whoever holds it. */
  lemma LapsedIsReported(db: Db, clock: Clock, selector: Uuid, accepted: bool, hash: Hash)
    requires Inv(db) && selector in db.tokens && !db.tokens[selector].consumed
    requires clock.now >= db.tokens[selector].expires
    ensures var t := db.tokens[selector];
      && (t.purpose == EMAIL_VERIFICATION ==> Verify(db, clock, selector, t.secret) == Err(ActionTokenExpired))
      && (t.purpose == PASSWORD_RESET && db.users[t.user].password.Some? ==>
            Reset(db, clock, selector, t.secret, accepted, hash) == Err(ActionTokenExpired))
  {
  }

  // ----- forward laws -----

  /** A reset token that was handed out resets the password in every later state in which it
      is still open and its user active, for 1800 seconds and not longer. */
  lemma IssuedResetWorks(db: Db, clock: Clock, user: Uuid, first: NewToken, ops: seq<Op>, later: Clock, hash: Hash)
    requires MayLogIn(db, user, false) && Forgot(db, clock, user, true, first).Ok?
    ensures var state := Exec(Forgot(db, clock, user, true, first).value, ops);
      && first.id in state.tokens && user in state.users && state.tokens[first.id].user == user
      && (Reset(state, later, first.id, first.secret, true, hash).Ok? <==>
            !state.tokens[first.id].consumed && MayLogIn(state, user, false)
            && later.now < clock.now + 1800 && later.dbNow < clock.now + 1800)
  {
    var after := Forgot(db, clock, user, true, first).value;
    ForgotEffect(db, clock, user, true, first);
    IssuedStays(after, ops, first.id);
    ResetIff(Exec(after, ops), later, first.id, first.secret, true, hash);
  }

  lemma IssuedStays(after: Db, ops: seq<Op>, id: Uuid)
    requires id in after.tokens && after.tokens[id].user in after.users
    ensures var state := Exec(after, ops);
      && id in state.tokens && state.tokens[id] == after.tokens[id].(consumed := state.tokens[id].consumed)
      && after.tokens[id].user in state.users
  {
    RunKeepsRows(after, ops);
    assert TokenKept(after, Exec(after, ops), id);
    assert UserKept(after, Exec(after, ops), after.tokens[id].user);
  }

  /** A verification token that was handed out verifies the address in every later state in
      which it is still open and its user active, for 86400 seconds and not longer. */
  lemma IssuedVerificationWorks(db: Db, clock: Clock, user: Uuid, first: NewToken, ops: seq<Op>, later: Clock)
    requires Inv(db) && user in db.users && db.users[user].status == ACTIVE && !db.users[user].verified
    requires Resend(db, clock, user, true, first).Ok?
    ensures var state := Exec(Resend(db, clock, user, true, first).value, ops);
      && first.id in state.tokens && user in state.users && state.tokens[first.id].user == user
      && (!state.tokens[first.id].consumed ==>
            (Verify(state, later, first.id, first.secret).Ok? <==>
               state.users[user].status == ACTIVE
               && later.now < clock.now + 86400 && later.dbNow < clock.now + 86400))
  {
    var after := Resend(db, clock, user, true, first).value;
    var state := Exec(after, ops);
    ResendEffect(db, clock, user, true, first);
    IssuedStays(after, ops, first.id);
    StepKeepsInv(db, ResendVerification(clock, user, true, first));
    EveryRunKeepsInv(after, ops);
    VerifyIff(state, later, first.id, first.secret);
    if first.id in state.verifiedBy { assert VerifierOk(state, first.id); }
  }

  /** After a reset the user logs in with the new password. */
  lemma NewPasswordLogsIn(db: Db, clock: Clock, selector: Uuid, secret: seq<int>, hash: Hash, login: Uuid,
                          session: Uuid)
    requires Reset(db, clock, selector, secret, true, hash).Ok? && session !in db.sessions
    ensures var after, user := Reset(db, clock, selector, secret, true, hash).value, db.tokens[selector].user;
      var read := LoginRead(after, login, user, true, false);
      && read.Ok? && read.value.logins[login] == Attempt(user, hash, db.users[user].version + 1)
      && LoginCommit(read.value, login, false, session).Ok?
  {
    ResetIff(db, clock, selector, secret, true, hash);
    var after, user := Reset(db, clock, selector, secret, true, hash).value, db.tokens[selector].user;
    LoginReadIff(after, login, user, true, false);
    LoginWorks(after, login, user, false, session);
  }
}
