/**
 Action tokens, passwords and login. Login reads and checks the password without a lock
 and only then opens its transaction, so its two phases are separate steps here and any
 other step may come between them.
 */
module AuthTokens {
  import opened Results
  import opened Identifiers
  import opened Credentials

  datatype Purpose = EMAIL_VERIFICATION | PASSWORD_RESET

  /** Password hashes are opaque; checking one against a password is the caller's oracle. */
  type Hash = int

  datatype User = User(status: UserStatus, password: Option<Hash>, version: int, verified: bool)

  datatype Token = Token(user: Uuid, purpose: Purpose, secret: seq<int>, expires: int, consumed: bool)

  /** The password a login has verified: what it read before taking the lock. */
  datatype Attempt = Attempt(user: Uuid, hash: Hash, version: int)

  /** `proof` is the login the session comes from; sessions opened by other flows have none. */
  datatype Session = Session(user: Uuid, live: bool, proof: Option<Attempt>)

  /** `verifiedBy` holds the tokens named by a successful email-verified audit event. */
  datatype Db = Db(users: map<Uuid, User>, tokens: map<Uuid, Token>, verifiedBy: set<Uuid>,
                   sessions: map<Uuid, Session>, logins: map<Uuid, Attempt>)

  datatype AuthError =
    | InvalidRequest | ActionTokenExpired | InvalidCredentials | EmailNotVerified
    | UserSuspended | UserDisabled | PasswordRejected | DependencyError

  type Outcome = Result<Db, AuthError>

  /** Lifetimes in seconds: thirty minutes and twenty-four hours. */
  const RESET_TTL := 1800
  const VERIFICATION_TTL := 86400

  const EMPTY := Db(map[], map[], {}, map[], map[])

  function StatusError(status: UserStatus): Option<AuthError> {
    match status
    case ACTIVE => None
    case SUSPENDED => Some(UserSuspended)
    case DISABLED => Some(UserDisabled)
  }

  // ----- the token statements -----

  /** Consumes every open token of the user and purpose. */
  function Invalidate(tokens: map<Uuid, Token>, user: Uuid, purpose: Purpose): map<Uuid, Token> {
    map t | t in tokens ::
      if tokens[t].user == user && tokens[t].purpose == purpose then tokens[t].(consumed := true) else tokens[t]
  }

  function Insert(tokens: map<Uuid, Token>, clock: Clock, first: NewToken, user: Uuid, purpose: Purpose, ttl: int)
      : Option<map<Uuid, Token>>
  {
    var expires := clock.now + ttl;
    if first.id in tokens || expires <= clock.dbNow then None
    else Some(tokens[first.id := Token(user, purpose, first.secret, expires, false)])
  }

  /** Invalidate, then create. */
  function Issue(db: Db, clock: Clock, first: NewToken, user: Uuid, purpose: Purpose, ttl: int): Outcome {
    match Insert(Invalidate(db.tokens, user, purpose), clock, first, user, purpose, ttl)
    case None => Err(DependencyError)
    case Some(tokens) => Ok(db.(tokens := tokens))
  }

  function EndSessions(sessions: map<Uuid, Session>, user: Uuid): map<Uuid, Session> {
    map s | s in sessions :: if sessions[s].user == user then sessions[s].(live := false) else sessions[s]
  }

  // ----- the transactions -----

  /** An unknown or ineligible address changes nothing and is not reported. `known` is what
      the lookup before the transaction found; the locked lookup must find it again. */
  function Forgot(db: Db, clock: Clock, user: Uuid, known: bool, first: NewToken): Outcome {
    if !known || user !in db.users || db.users[user].status != ACTIVE || db.users[user].password.None? then Ok(db)
    else Issue(db, clock, first, user, PASSWORD_RESET, RESET_TTL)
  }

  function Resend(db: Db, clock: Clock, user: Uuid, known: bool, first: NewToken): Outcome {
    if !known || user !in db.users || db.users[user].status != ACTIVE || db.users[user].verified then Ok(db)
    else Issue(db, clock, first, user, EMAIL_VERIFICATION, VERIFICATION_TTL)
  }

  function Register(db: Db, clock: Clock, user: Uuid, hash: Hash, verificationRequired: bool, first: NewToken)
      : Outcome
  {
    if user in db.users then Err(DependencyError)
    else
      var created := db.(users := db.users[user := User(ACTIVE, Some(hash), 1, !verificationRequired)]);
      if !verificationRequired then Ok(created)
      else
        match Insert(db.tokens, clock, first, user, EMAIL_VERIFICATION, VERIFICATION_TTL)
        case None => Err(DependencyError)
        case Some(tokens) => Ok(created.(tokens := tokens))
  }

  /** The new password, its version, and everything it ends. */
  function ReplacePassword(db: Db, user: Uuid, hash: Hash): Db
    requires user in db.users
  {
    db.(users := db.users[user := db.users[user].(password := Some(hash), version := db.users[user].version + 1)],
        tokens := Invalidate(db.tokens, user, PASSWORD_RESET),
        sessions := EndSessions(db.sessions, user))
  }

  /** `accepted` is the password policy's verdict on the new password. */
  function Reset(db: Db, clock: Clock, selector: Uuid, secret: seq<int>, accepted: bool, hash: Hash): Outcome {
    if selector !in db.tokens || db.tokens[selector].purpose != PASSWORD_RESET then Err(InvalidRequest)
    else
      var t := db.tokens[selector];
      if t.user !in db.users || db.users[t.user].password.None? then Err(InvalidRequest)
      else if t.secret != secret || t.consumed then Err(InvalidRequest)
      else if clock.now >= t.expires then Err(ActionTokenExpired)
      else
        var status := StatusError(db.users[t.user].status);
        if status.Some? then Err(status.value)
        else if !accepted then Err(PasswordRejected)
        else if t.expires <= clock.dbNow then Err(InvalidRequest)
        else Ok(ReplacePassword(db, t.user, hash))
  }

  /** `matches` is the hasher's verdict on the current password. */
  function Change(db: Db, user: Uuid, matches: bool, accepted: bool, hash: Hash): Outcome {
    if user !in db.users || db.users[user].password.None? then Err(DependencyError)
    else
      var status := StatusError(db.users[user].status);
      if status.Some? then Err(status.value)
      else if !matches then Err(InvalidCredentials)
      else if !accepted then Err(PasswordRejected)
      else Ok(ReplacePassword(db, user, hash))
  }

  function Verify(db: Db, clock: Clock, selector: Uuid, secret: seq<int>): Outcome {
    if selector !in db.tokens || db.tokens[selector].purpose != EMAIL_VERIFICATION then Err(InvalidRequest)
    else
      var t := db.tokens[selector];
      if t.secret != secret then Err(InvalidRequest)
      else if t.user !in db.users then Err(DependencyError)
      else if t.consumed then
        if db.users[t.user].verified && selector in db.verifiedBy then Ok(db) else Err(InvalidRequest)
      else if clock.now >= t.expires then Err(ActionTokenExpired)
      else
        var status := StatusError(db.users[t.user].status);
        if status.Some? then Err(status.value)
        else if t.expires <= clock.dbNow then Err(InvalidRequest)
        else
          Ok(db.(users := db.users[t.user := db.users[t.user].(verified := true)],
                 tokens := Invalidate(db.tokens, t.user, EMAIL_VERIFICATION),
                 verifiedBy := db.verifiedBy + {selector}))
  }

  /** First phase, no lock: read the credential and check the password against it. */
  function LoginRead(db: Db, login: Uuid, user: Uuid, matches: bool, verificationRequired: bool): Outcome {
    if user !in db.users || db.users[user].password.None? || !matches then Err(InvalidCredentials)
    else
      var u := db.users[user];
      var status := StatusError(u.status);
      if status.Some? then Err(status.value)
      else if verificationRequired && !u.verified then Err(EmailNotVerified)
      else Ok(db.(logins := db.logins[login := Attempt(user, u.password.value, u.version)]))
  }

  /** Second phase, user row locked: compare with what was read, then create the session. */
  function LoginCommit(db: Db, login: Uuid, verificationRequired: bool, session: Uuid): Outcome {
    if login !in db.logins then Err(DependencyError)
    else
      var a := db.logins[login];
      if a.user !in db.users || db.users[a.user].password.None? then Err(DependencyError)
      else
        var u := db.users[a.user];
        if u.password != Some(a.hash) || u.version != a.version then Err(InvalidCredentials)
        else if StatusError(u.status).Some? then Err(StatusError(u.status).value)
        else if verificationRequired && !u.verified then Err(EmailNotVerified)
        else if session in db.sessions then Err(DependencyError)
        else Ok(db.(sessions := db.sessions[session := Session(a.user, true, Some(a))]))
  }

  datatype Op =
    | ForgotPassword(clock: Clock, user: Uuid, known: bool, first: NewToken)
    | ResendVerification(clock: Clock, user: Uuid, known: bool, first: NewToken)
    | RegisterUser(clock: Clock, user: Uuid, hash: Hash, verificationRequired: bool, first: NewToken)
    | ResetPassword(clock: Clock, selector: Uuid, secret: seq<int>, accepted: bool, hash: Hash)
    | ChangePassword(user: Uuid, matches: bool, accepted: bool, hash: Hash)
    | VerifyEmail(clock: Clock, selector: Uuid, secret: seq<int>)
    | StartLogin(login: Uuid, user: Uuid, matches: bool, verificationRequired: bool)
    | FinishLogin(login: Uuid, verificationRequired: bool, session: Uuid)
    | OpenOther(session: Uuid, user: Uuid)
    | EndSession(session: Uuid)
    | SetStatus(user: Uuid, status: UserStatus)

  function Perform(db: Db, op: Op): Outcome {
    match op
    case ForgotPassword(clock, user, known, first) => Forgot(db, clock, user, known, first)
    case ResendVerification(clock, user, known, first) => Resend(db, clock, user, known, first)
    case RegisterUser(clock, user, hash, required, first) => Register(db, clock, user, hash, required, first)
    case ResetPassword(clock, selector, secret, accepted, hash) => Reset(db, clock, selector, secret, accepted, hash)
    case ChangePassword(user, matches, accepted, hash) => Change(db, user, matches, accepted, hash)
    case VerifyEmail(clock, selector, secret) => Verify(db, clock, selector, secret)
    case StartLogin(login, user, matches, required) => LoginRead(db, login, user, matches, required)
    case FinishLogin(login, required, session) => LoginCommit(db, login, required, session)
    case OpenOther(session, user) =>
      if session in db.sessions || user !in db.users then Err(DependencyError)
      else Ok(db.(sessions := db.sessions[session := Session(user, true, None)]))
    case EndSession(session) =>
      if session !in db.sessions then Err(InvalidRequest)
      else Ok(db.(sessions := db.sessions[session := db.sessions[session].(live := false)]))
    case SetStatus(user, status) =>
      if user !in db.users then Err(InvalidRequest)
      else Ok(db.(users := db.users[user := db.users[user].(status := status)]))
  }

  function Step(db: Db, op: Op): Db {
    var r := Perform(db, op);
    if r.Ok? then r.value else db
  }

  function Exec(db: Db, ops: seq<Op>): Db {
    if ops == [] then db else Step(Exec(db, ops[..|ops| - 1]), ops[|ops| - 1])
  }

  // ----- invariant -----

  predicate Open(db: Db, t: Uuid, user: Uuid, purpose: Purpose) {
    t in db.tokens && db.tokens[t].user == user && db.tokens[t].purpose == purpose && !db.tokens[t].consumed
  }

  predicate OneOpenToken(db: Db) {
    forall t, u :: t in db.tokens && u in db.tokens && SameKind(db.tokens[t], db.tokens[u]) ==> t == u
  }

  predicate SameKind(t: Token, u: Token) {
    t.user == u.user && t.purpose == u.purpose && !t.consumed && !u.consumed
  }

  predicate TokensOk(db: Db) {
    && (forall t :: t in db.tokens ==> db.tokens[t].user in db.users)
    && (forall t :: t in db.verifiedBy ==> VerifierOk(db, t))
  }

  /** The token that verified an address is spent and its user is verified. */
  predicate VerifierOk(db: Db, t: Uuid) {
    && t in db.tokens && db.tokens[t].consumed && db.tokens[t].purpose == EMAIL_VERIFICATION
    && db.tokens[t].user in db.users && db.users[db.tokens[t].user].verified
  }

  /** The password version named in a proof is the current one, with its hash. */
  predicate ProofCurrent(db: Db, a: Attempt) {
    a.user in db.users && db.users[a.user].version == a.version && db.users[a.user].password == Some(a.hash)
  }

  predicate SessionsOk(db: Db) {
    forall s :: s in db.sessions ==>
      && db.sessions[s].user in db.users
      && (db.sessions[s].proof.Some? ==> db.sessions[s].proof.value.user == db.sessions[s].user)
      && (db.sessions[s].live && db.sessions[s].proof.Some? ==> ProofCurrent(db, db.sessions[s].proof.value))
  }

  /** An attempt read an earlier or the current version, and the version decides the hash. */
  predicate LoginsOk(db: Db) {
    forall l :: l in db.logins ==>
      && db.logins[l].user in db.users && db.logins[l].version <= db.users[db.logins[l].user].version
      && (db.logins[l].version == db.users[db.logins[l].user].version ==> ProofCurrent(db, db.logins[l]))
  }

  predicate Inv(db: Db) {
    OneOpenToken(db) && TokensOk(db) && SessionsOk(db) && LoginsOk(db)
  }

  lemma InvalidateCloses(db: Db, user: Uuid, purpose: Purpose)
    requires Inv(db)
    ensures var after := db.(tokens := Invalidate(db.tokens, user, purpose));
      Inv(after) && forall t :: !Open(after, t, user, purpose)
  {
    var after := db.(tokens := Invalidate(db.tokens, user, purpose));
    forall t, u | t in after.tokens && u in after.tokens && SameKind(after.tokens[t], after.tokens[u]) ensures t == u {
      assert SameKind(db.tokens[t], db.tokens[u]);
    }
  }

  lemma IssueKeepsInv(db: Db, clock: Clock, first: NewToken, user: Uuid, purpose: Purpose, ttl: int)
    requires Inv(db) && user in db.users && Issue(db, clock, first, user, purpose, ttl).Ok?
    ensures Inv(Issue(db, clock, first, user, purpose, ttl).value)
  {
    InvalidateCloses(db, user, purpose);
    var closed := db.(tokens := Invalidate(db.tokens, user, purpose));
    var after := Issue(db, clock, first, user, purpose, ttl).value;
    forall t, u | t in after.tokens && u in after.tokens && SameKind(after.tokens[t], after.tokens[u]) ensures t == u {
      if t != first.id && u != first.id {
        assert SameKind(closed.tokens[t], closed.tokens[u]);
      } else {
        assert !Open(closed, t, user, purpose) && !Open(closed, u, user, purpose);
      }
    }
  }

  lemma ReplacePasswordKeepsInv(db: Db, user: Uuid, hash: Hash)
    requires Inv(db) && user in db.users
    ensures Inv(ReplacePassword(db, user, hash))
  {
    InvalidateCloses(db, user, PASSWORD_RESET);
    var closed := db.(tokens := Invalidate(db.tokens, user, PASSWORD_RESET));
    var after := ReplacePassword(db, user, hash);
    assert OneOpenToken(after) by {
      forall t, u | t in after.tokens && u in after.tokens && SameKind(after.tokens[t], after.tokens[u])
        ensures t == u
      {
        assert SameKind(closed.tokens[t], closed.tokens[u]);
      }
    }
    assert TokensOk(after) by { assert TokensOk(closed); }
  }

  lemma VerifyKeepsInv(db: Db, clock: Clock, selector: Uuid, secret: seq<int>)
    requires Inv(db) && Verify(db, clock, selector, secret).Ok?
    ensures Inv(Verify(db, clock, selector, secret).value)
  {
    var after := Verify(db, clock, selector, secret).value;
    if after != db {
      var user := db.tokens[selector].user;
      InvalidateCloses(db, user, EMAIL_VERIFICATION);
      var closed := db.(tokens := Invalidate(db.tokens, user, EMAIL_VERIFICATION));
      forall t, u | t in after.tokens && u in after.tokens && SameKind(after.tokens[t], after.tokens[u])
        ensures t == u
      {
        assert SameKind(closed.tokens[t], closed.tokens[u]);
      }
    }
  }

  lemma RegisterKeepsInv(db: Db, clock: Clock, user: Uuid, hash: Hash, required: bool, first: NewToken)
    requires Inv(db) && Register(db, clock, user, hash, required, first).Ok?
    ensures Inv(Register(db, clock, user, hash, required, first).value)
  {
    var after := Register(db, clock, user, hash, required, first).value;
    forall t, u | t in after.tokens && u in after.tokens && SameKind(after.tokens[t], after.tokens[u]) ensures t == u {
      if t in db.tokens && u in db.tokens { assert SameKind(db.tokens[t], db.tokens[u]); }
    }
  }

  lemma StepKeepsInv(db: Db, op: Op)
    requires Inv(db)
    ensures Inv(Step(db, op))
  {
    if Perform(db, op).Ok? {
      match op
      case ForgotPassword(clock, user, known, first) =>
        if Step(db, op) != db { IssueKeepsInv(db, clock, first, user, PASSWORD_RESET, RESET_TTL); }
      case ResendVerification(clock, user, known, first) =>
        if Step(db, op) != db { IssueKeepsInv(db, clock, first, user, EMAIL_VERIFICATION, VERIFICATION_TTL); }
      case RegisterUser(clock, user, hash, required, first) => RegisterKeepsInv(db, clock, user, hash, required, first);
      case ResetPassword(clock, selector, secret, accepted, hash) =>
        ReplacePasswordKeepsInv(db, db.tokens[selector].user, hash);
      case ChangePassword(user, matches, accepted, hash) => ReplacePasswordKeepsInv(db, user, hash);
      case VerifyEmail(clock, selector, secret) => VerifyKeepsInv(db, clock, selector, secret);
      case _ => SessionStepKeepsInv(db, op);
    }
  }

  lemma SessionStepKeepsInv(db: Db, op: Op)
    requires Inv(db) && Perform(db, op).Ok?
    requires op.StartLogin? || op.FinishLogin? || op.OpenOther? || op.EndSession? || op.SetStatus?
    ensures Inv(Step(db, op))
  {
    assert Step(db, op).tokens == db.tokens && Step(db, op).verifiedBy == db.verifiedBy;
  }

  lemma {:induction false} EveryRunKeepsInv(db: Db, ops: seq<Op>)
    requires Inv(db)
    ensures Inv(Exec(db, ops))
  {
    if ops != [] {
      EveryRunKeepsInv(db, ops[..|ops| - 1]);
      StepKeepsInv(Exec(db, ops[..|ops| - 1]), ops[|ops| - 1]);
    }
  }

  lemma OpenTokensCoincide(db: Db, user: Uuid, purpose: Purpose, t: Uuid, u: Uuid)
    requires Inv(db) && Open(db, t, user, purpose) && Open(db, u, user, purpose)
    ensures t == u
  {
    assert SameKind(db.tokens[t], db.tokens[u]);
  }

  predicate LoginSessionSound(db: Db, session: Uuid) {
    session in db.sessions && db.sessions[session].live && db.sessions[session].proof.Some? ==>
      && ProofCurrent(db, db.sessions[session].proof.value)
      && db.sessions[session].proof.value.user == db.sessions[session].user
  }

  predicate TokensUnique(db: Db) {
    forall t, u | t in db.tokens && u in db.tokens ::
      Open(db, t, db.tokens[t].user, db.tokens[t].purpose) && Open(db, u, db.tokens[t].user, db.tokens[t].purpose)
      ==> t == u
  }

  predicate Sound(db: Db) {
    TokensUnique(db) && forall session :: session in db.sessions ==> LoginSessionSound(db, session)
  }

  lemma InvIsSound(db: Db)
    requires Inv(db)
    ensures Sound(db)
  {
    forall t, u | t in db.tokens && u in db.tokens && Open(db, t, db.tokens[t].user, db.tokens[t].purpose)
        && Open(db, u, db.tokens[t].user, db.tokens[t].purpose)
      ensures t == u
    {
      OpenTokensCoincide(db, db.tokens[t].user, db.tokens[t].purpose, t, u);
    }
  }

  lemma NoRowsInv(db: Db)
    requires db.tokens == map[] && db.verifiedBy == {} && db.sessions == map[] && db.logins == map[]
    ensures Inv(db)
  {
  }

  lemma EmptyInv()
    ensures Inv(EMPTY)
  {
    NoRowsInv(EMPTY);
  }

  // ----- where logins come from -----

  /** A user with a password, signed in by status and, where asked for, by address. */
  predicate MayLogIn(db: Db, user: Uuid, required: bool) {
    && user in db.users && db.users[user].password.Some? && db.users[user].status == ACTIVE
    && (required ==> db.users[user].verified)
  }

  /** The first phase goes through exactly with the right password of a user who may log in,
      and records that password's hash and version and nothing else. */
  lemma LoginReadIff(db: Db, login: Uuid, user: Uuid, matches: bool, required: bool)
    ensures LoginRead(db, login, user, matches, required).Ok? <==> matches && MayLogIn(db, user, required)
    ensures LoginRead(db, login, user, matches, required).Ok? ==>
      var after := LoginRead(db, login, user, matches, required).value;
      && after == db.(logins := after.logins) && after.logins.Keys == db.logins.Keys + {login}
      && (forall l :: l in db.logins && l != login ==> after.logins[l] == db.logins[l])
      && after.logins[login].user == user && ProofCurrent(db, after.logins[login])
    ensures !matches ==> LoginRead(db, login, user, matches, required) == Err(InvalidCredentials)
  {
  }

  /** The second phase opens a session for the attempt exactly if the user may still log in
      with the password and version that were read. */
  lemma LoginCommitIff(db: Db, login: Uuid, required: bool, session: Uuid)
    ensures LoginCommit(db, login, required, session).Ok? <==>
      && login in db.logins && ProofCurrent(db, db.logins[login])
      && MayLogIn(db, db.logins[login].user, required) && session !in db.sessions
    ensures LoginCommit(db, login, required, session).Ok? ==>
      var after, a := LoginCommit(db, login, required, session).value, db.logins[login];
      && after == db.(sessions := after.sessions) && after.sessions.Keys == db.sessions.Keys + {session}
      && (forall s :: s in db.sessions ==> after.sessions[s] == db.sessions[s])
      && after.sessions[session].user == a.user && after.sessions[session].live
      && after.sessions[session].proof == Some(a)
  {
  }

  /** Step `k` of the run was a login with the right password, and the password and version
      it was checked against are those of `a`. */
  predicate GaveThePassword(start: Db, ops: seq<Op>, k: nat, a: Attempt)
    requires k < |ops|
  {
    && ops[k].StartLogin? && ops[k].user == a.user && ops[k].matches
    && ProofCurrent(Exec(start, ops[..k]), a) && Exec(start, ops[..k]).users[a.user].status == ACTIVE
  }

  ghost predicate PasswordGiven(start: Db, ops: seq<Op>, a: Attempt) {
    exists k: nat :: k < |ops| && GaveThePassword(start, ops, k, a)
  }

  ghost predicate AttemptsGiven(start: Db, ops: seq<Op>, db: Db) {
    && (forall l :: l in db.logins ==> PasswordGiven(start, ops, db.logins[l]))
    && (forall s :: s in db.sessions && db.sessions[s].proof.Some? ==>
          PasswordGiven(start, ops, db.sessions[s].proof.value))
  }

  lemma GivenEarlier(start: Db, ops: seq<Op>, a: Attempt)
    requires |ops| > 0 && PasswordGiven(start, ops[..|ops| - 1], a)
    ensures PasswordGiven(start, ops, a)
  {
    var before := ops[..|ops| - 1];
    var k: nat :| k < |before| && GaveThePassword(start, before, k, a);
    assert before[..k] == ops[..k] && before[k] == ops[k];
    assert GaveThePassword(start, ops, k, a);
  }

  /** Where the attempts of a state come from: a login step or the state before. */
  lemma NewAttempts(db: Db, op: Op, a: Attempt)
    requires var after := Step(db, op);
      || (exists l :: l in after.logins && after.logins[l] == a)
      || (exists s :: s in after.sessions && after.sessions[s].proof == Some(a))
    ensures || (exists l :: l in db.logins && db.logins[l] == a)
            || (exists s :: s in db.sessions && db.sessions[s].proof == Some(a))
            || (op.StartLogin? && op.user == a.user && op.matches && ProofCurrent(db, a)
                && db.users[a.user].status == ACTIVE)
  {
    if op.StartLogin? {
      LoginReadIff(db, op.login, op.user, op.matches, op.verificationRequired);
    } else if op.FinishLogin? {
      LoginCommitIff(db, op.login, op.verificationRequired, op.session);
    } else {
      OtherStepKeepsAttempts(db, op);
    }
  }

  lemma OtherStepKeepsAttempts(db: Db, op: Op)
    requires !op.StartLogin? && !op.FinishLogin?
    ensures Step(db, op).logins == db.logins
    ensures forall s :: s in Step(db, op).sessions && Step(db, op).sessions[s].proof.Some? ==>
      s in db.sessions && db.sessions[s].proof == Step(db, op).sessions[s].proof
  {
  }

  lemma {:induction false} AttemptsAreGiven(start: Db, ops: seq<Op>)
    requires start.logins == map[] && start.sessions == map[]
    ensures AttemptsGiven(start, ops, Exec(start, ops))
  {
    if |ops| > 0 {
      var before, last := ops[..|ops| - 1], ops[|ops| - 1];
      var db, after := Exec(start, before), Exec(start, ops);
      AttemptsAreGiven(start, before);
      forall a: Attempt | || (exists l :: l in after.logins && after.logins[l] == a)
                          || (exists s :: s in after.sessions && after.sessions[s].proof == Some(a))
        ensures PasswordGiven(start, ops, a)
      {
        NewAttempts(db, last, a);
        if last.StartLogin? && last.user == a.user && last.matches && ProofCurrent(db, a)
           && db.users[a.user].status == ACTIVE {
          assert GaveThePassword(start, ops, |ops| - 1, a);
        } else {
          GivenEarlier(start, ops, a);
        }
      }
    }
  }

  /** In every reachable state, whatever came between the two phases of each login: a live
      session opened by a login rests on the user's current password, every session a login
      opened goes back to a step in which its active user gave the right password, against
      the hash and version it names, and a user has at most one open token per purpose. */
  lemma ReachableStates(ops: seq<Op>)
    ensures Sound(Exec(EMPTY, ops)) && AttemptsGiven(EMPTY, ops, Exec(EMPTY, ops))
  {
    EmptyInv();
    GoodRunsAreSound(EMPTY, ops);
    AttemptsAreGiven(EMPTY, ops);
  }

  lemma GoodRunsAreSound(db: Db, ops: seq<Op>)
    requires Inv(db)
    ensures Sound(Exec(db, ops))
  {
    EveryRunKeepsInv(db, ops);
    InvIsSound(Exec(db, ops));
  }

  // ----- what never goes back -----

  predicate TokenKept(before: Db, after: Db, t: Uuid)
    requires t in before.tokens
  {
    && t in after.tokens
    && after.tokens[t] == before.tokens[t].(consumed := after.tokens[t].consumed)
    && (before.tokens[t].consumed ==> after.tokens[t].consumed && (t in after.verifiedBy <==> t in before.verifiedBy))
  }

  predicate UserKept(before: Db, after: Db, u: Uuid)
    requires u in before.users
  {
    && u in after.users && before.users[u].version <= after.users[u].version
    && (before.users[u].verified ==> after.users[u].verified)
    && (before.users[u].version == after.users[u].version ==> before.users[u].password == after.users[u].password)
  }

  predicate RowsKept(before: Db, after: Db) {
    && (forall t :: t in before.tokens ==> TokenKept(before, after, t))
    && (forall u :: u in before.users ==> UserKept(before, after, u))
  }

  lemma StepKeepsRows(db: Db, op: Op)
    ensures RowsKept(db, Step(db, op))
  {
    if op.ForgotPassword? || op.ResendVerification? || op.RegisterUser? {
      IssuingKeepsRows(db, op);
    } else {
      OtherStepKeepsRows(db, op);
    }
  }

  lemma IssuingKeepsRows(db: Db, op: Op)
    requires op.ForgotPassword? || op.ResendVerification? || op.RegisterUser?
    ensures RowsKept(db, Step(db, op))
  {
  }

  lemma OtherStepKeepsRows(db: Db, op: Op)
    requires !op.ForgotPassword? && !op.ResendVerification? && !op.RegisterUser?
    ensures RowsKept(db, Step(db, op))
  {
  }

  lemma RowsCompose(a: Db, b: Db, c: Db)
    requires RowsKept(a, b) && RowsKept(b, c)
    ensures RowsKept(a, c)
  {
    forall t | t in a.tokens ensures TokenKept(a, c, t) {
      assert TokenKept(a, b, t);
      assert TokenKept(b, c, t);
    }
    forall u | u in a.users ensures UserKept(a, c, u) {
      assert UserKept(a, b, u);
      assert UserKept(b, c, u);
    }
  }

  /** Consumed tokens stay consumed and versions never fall, through every run. */
  lemma {:induction false} RunKeepsRows(db: Db, ops: seq<Op>)
    ensures RowsKept(db, Exec(db, ops))
  {
    if ops != [] {
      var before := Exec(db, ops[..|ops| - 1]);
      RunKeepsRows(db, ops[..|ops| - 1]);
      StepKeepsRows(before, ops[|ops| - 1]);
      RowsCompose(db, before, Exec(db, ops));
    }
  }

  /** A reset needs an unexpired, open token with its secret; it raises the version by
      one, ends every session of the user and leaves no open reset token. */
  lemma ResetEffect(db: Db, clock: Clock, selector: Uuid, secret: seq<int>, accepted: bool, hash: Hash)
    requires Inv(db) && Reset(db, clock, selector, secret, accepted, hash).Ok?
    ensures var after, t := Reset(db, clock, selector, secret, accepted, hash).value, db.tokens[selector];
      && clock.now < t.expires && clock.dbNow < t.expires && !t.consumed && t.secret == secret
      && after.users[t.user] == db.users[t.user].(password := Some(hash), version := db.users[t.user].version + 1)
      && after.tokens[selector].consumed && (forall u :: !Open(after, u, t.user, PASSWORD_RESET))
      && (forall s :: s in after.sessions && after.sessions[s].user == t.user ==> !after.sessions[s].live)
  {
    InvalidateCloses(db, db.tokens[selector].user, PASSWORD_RESET);
  }

  lemma ChangeEffect(db: Db, user: Uuid, matches: bool, accepted: bool, hash: Hash)
    requires Inv(db) && Change(db, user, matches, accepted, hash).Ok?
    ensures var after := Change(db, user, matches, accepted, hash).value;
      && matches && after.users[user] == db.users[user].(password := Some(hash), version := db.users[user].version + 1)
      && (forall u :: !Open(after, u, user, PASSWORD_RESET))
      && (forall s :: s in after.sessions && after.sessions[s].user == user ==> !after.sessions[s].live)
  {
    InvalidateCloses(db, user, PASSWORD_RESET);
  }

  /** A reset token changes the password at most once, whatever runs in between. */
  lemma ResetsAtMostOnce(db: Db, clock: Clock, selector: Uuid, secret: seq<int>, accepted: bool, hash: Hash,
                         ops: seq<Op>, later: Clock, again: seq<int>, acceptedAgain: bool, other: Hash)
    requires Inv(db) && Reset(db, clock, selector, secret, accepted, hash).Ok?
    ensures Reset(Exec(Reset(db, clock, selector, secret, accepted, hash).value, ops), later, selector, again,
                  acceptedAgain, other) == Err(InvalidRequest)
  {
    var after := Reset(db, clock, selector, secret, accepted, hash).value;
    ResetEffect(db, clock, selector, secret, accepted, hash);
    RunKeepsRows(after, ops);
    assert TokenKept(after, Exec(after, ops), selector);
  }

  /** A consumed verification token is accepted again exactly when that same token verified
      the address; then nothing changes. */
  lemma AcceptedAgainIff(db: Db, clock: Clock, selector: Uuid, secret: seq<int>)
    requires Inv(db) && selector in db.tokens && db.tokens[selector].consumed
    requires db.tokens[selector].purpose == EMAIL_VERIFICATION
    ensures Verify(db, clock, selector, secret).Ok?
       <==> db.tokens[selector].secret == secret && selector in db.verifiedBy
    ensures Verify(db, clock, selector, secret).Ok? ==> Verify(db, clock, selector, secret).value == db
  {
  }

  lemma VerifiedStays(before: Db, after: Db, t: Uuid)
    requires RowsKept(before, after) && t in before.verifiedBy && VerifierOk(before, t)
    ensures t in after.verifiedBy && VerifierOk(after, t) && after.tokens[t].secret == before.tokens[t].secret
  {
    assert TokenKept(before, after, t);
    assert UserKept(before, after, before.tokens[t].user);
  }

  lemma AcceptedIsVerifier(db: Db, clock: Clock, selector: Uuid, secret: seq<int>)
    requires Inv(db) && Verify(db, clock, selector, secret).Ok?
    ensures var after := Verify(db, clock, selector, secret).value;
      selector in after.verifiedBy && VerifierOk(after, selector) && after.tokens[selector].secret == secret
  {
    VerifyKeepsInv(db, clock, selector, secret);
  }

  /** The token that verified the address keeps being accepted, without effect, for good. */
  lemma VerifierAcceptedForever(db: Db, clock: Clock, selector: Uuid, secret: seq<int>, ops: seq<Op>, later: Clock)
    requires Inv(db) && Verify(db, clock, selector, secret).Ok?
    ensures var state := Exec(Verify(db, clock, selector, secret).value, ops);
      Verify(state, later, selector, secret) == Ok(state)
  {
    var after := Verify(db, clock, selector, secret).value;
    AcceptedIsVerifier(db, clock, selector, secret);
    RunKeepsRows(after, ops);
    VerifiedStays(after, Exec(after, ops), selector);
  }

  /** A verification token that was open when another took its place is refused in every
      later state. */
  lemma SupersededRefusedForever(db: Db, clock: Clock, user: Uuid, known: bool, first: NewToken, stale: Uuid,
                                 ops: seq<Op>, later: Clock, secret: seq<int>)
    requires Inv(db) && Open(db, stale, user, EMAIL_VERIFICATION)
    requires Resend(db, clock, user, known, first).Ok? && Resend(db, clock, user, known, first).value != db
    ensures Verify(Exec(Resend(db, clock, user, known, first).value, ops), later, stale, secret) == Err(InvalidRequest)
  {
    var after := Resend(db, clock, user, known, first).value;
    assert stale !in db.verifiedBy;
    assert after.tokens[stale].consumed && stale !in after.verifiedBy;
    StepKeepsInv(db, ResendVerification(clock, user, known, first));
    EveryRunKeepsInv(after, ops);
    RunKeepsRows(after, ops);
    assert TokenKept(after, Exec(after, ops), stale);
    AcceptedAgainIff(Exec(after, ops), later, stale, secret);
  }

  /** So is a reset token that was open when another took its place. */
  lemma SupersededResetRefusedForever(db: Db, clock: Clock, user: Uuid, known: bool, first: NewToken, stale: Uuid,
                                      ops: seq<Op>, later: Clock, secret: seq<int>, accepted: bool, hash: Hash)
    requires Open(db, stale, user, PASSWORD_RESET)
    requires Forgot(db, clock, user, known, first).Ok? && Forgot(db, clock, user, known, first).value != db
    ensures Reset(Exec(Forgot(db, clock, user, known, first).value, ops), later, stale, secret, accepted, hash)
         == Err(InvalidRequest)
  {
    var after := Forgot(db, clock, user, known, first).value;
    assert after.tokens[stale].consumed && after.tokens[stale].purpose == PASSWORD_RESET;
    RunKeepsRows(after, ops);
    assert TokenKept(after, Exec(after, ops), stale);
  }

  /** A password change between the two phases of a login makes its second phase fail. */
  lemma LoginOvertakenByChange(db: Db, login: Uuid, before: seq<Op>, change: Op, rest: seq<Op>, required: bool,
                               session: Uuid)
    requires Inv(db) && login in db.logins
    requires change.ResetPassword? || change.ChangePassword?
    requires var mid := Exec(db, before);
      Perform(mid, change).Ok? && ChangedUser(mid, change) == Some(db.logins[login].user)
    requires var end := Exec(Step(Exec(db, before), change), rest);
      login in end.logins && end.logins[login] == db.logins[login]
    ensures LoginCommit(Exec(Step(Exec(db, before), change), rest), login, required, session).Err?
  {
    var mid := Exec(db, before);
    var after := Step(mid, change);
    var end := Exec(after, rest);
    var user := db.logins[login].user;
    EveryRunKeepsInv(db, before);
    RunKeepsRows(db, before);
    assert UserKept(db, mid, user);
    RunKeepsRows(after, rest);
    assert after.users[user].version == mid.users[user].version + 1;
    assert UserKept(after, end, user);
  }

  function ChangedUser(db: Db, change: Op): Option<Uuid> {
    match change
    case ResetPassword(_, selector, _, _, _) => if selector in db.tokens then Some(db.tokens[selector].user) else None
    case ChangePassword(user, _, _, _) => Some(user)
    case _ => None
  }

  // ----- the service -----

  class Auth {
    var users: map<Uuid, User>
    var tokens: map<Uuid, Token>
    var verifiedBy: set<Uuid>
    var sessions: map<Uuid, Session>
    var logins: map<Uuid, Attempt>

    ghost function View(): Db
      reads this
    {
      Db(users, tokens, verifiedBy, sessions, logins)
    }

    constructor ()
      ensures View() == EMPTY
    {
      users, tokens, verifiedBy, sessions, logins := map[], map[], {}, map[], map[];
    }

    /** Two statements: invalidate what is open, insert the new token. */
    method CreateActionToken(clock: Clock, user: Uuid, purpose: Purpose, ttl: int, first: NewToken) returns (ok: bool)
      modifies this`tokens
      ensures var issued := Issue(old(View()), clock, first, user, purpose, ttl);
        (ok <==> issued.Ok?) && (ok ==> View() == issued.value)
    {
      tokens := Invalidate(tokens, user, purpose);
      if first.id in tokens || clock.now + ttl <= clock.dbNow {
        return false;
      }
      tokens := tokens[first.id := Token(user, purpose, first.secret, clock.now + ttl, false)];
      return true;
    }

    method Forgot(clock: Clock, user: Uuid, known: bool, first: NewToken) returns (r: Option<AuthError>)
      modifies this`tokens
      ensures View() == Step(old(View()), ForgotPassword(clock, user, known, first))
      ensures r == ErrorOf(old(View()), ForgotPassword(clock, user, known, first))
    {
      if !known || user !in users || users[user].status != ACTIVE || users[user].password.None? {
        return None;
      }
      var before := tokens;
      var ok := CreateActionToken(clock, user, PASSWORD_RESET, RESET_TTL, first);
      if !ok {
        tokens := before;
        return Some(DependencyError);
      }
      return None;
    }

    method Resend(clock: Clock, user: Uuid, known: bool, first: NewToken) returns (r: Option<AuthError>)
      modifies this`tokens
      ensures View() == Step(old(View()), ResendVerification(clock, user, known, first))
      ensures r == ErrorOf(old(View()), ResendVerification(clock, user, known, first))
    {
      if !known || user !in users || users[user].status != ACTIVE || users[user].verified {
        return None;
      }
      var before := tokens;
      var ok := CreateActionToken(clock, user, EMAIL_VERIFICATION, VERIFICATION_TTL, first);
      if !ok {
        tokens := before;
        return Some(DependencyError);
      }
      return None;
    }

    /** The statements of a reset; the password is already written when the token turns
        out to have expired by the database's clock. */
    method ResetStatements(clock: Clock, selector: Uuid, secret: seq<int>, accepted: bool, hash: Hash)
      returns (r: Option<AuthError>)
      modifies this`users, this`tokens, this`sessions
      ensures var done := Reset(old(View()), clock, selector, secret, accepted, hash);
        if done.Ok? then r == None && View() == done.value else r == Some(done.error)
    {
      if selector !in tokens || tokens[selector].purpose != PASSWORD_RESET {
        return Some(InvalidRequest);
      }
      var token := tokens[selector];
      var user := token.user;
      if user !in users || users[user].password.None? {
        return Some(InvalidRequest);
      }
      if token.secret != secret || token.consumed {
        return Some(InvalidRequest);
      }
      if clock.now >= token.expires {
        return Some(ActionTokenExpired);
      }
      var status := StatusError(users[user].status);
      if status.Some? {
        return status;
      }
      if !accepted {
        return Some(PasswordRejected);
      }
      users := users[user := users[user].(password := Some(hash), version := users[user].version + 1)];
      if token.expires <= clock.dbNow {
        return Some(InvalidRequest);
      }
      tokens := tokens[selector := token.(consumed := true)];
      tokens := Invalidate(tokens, user, PASSWORD_RESET);
      sessions := EndSessions(sessions, user);
      return None;
    }

    method ResetWithToken(clock: Clock, selector: Uuid, secret: seq<int>, accepted: bool, hash: Hash)
      returns (r: Option<AuthError>)
      modifies this`users, this`tokens, this`sessions
      ensures View() == Step(old(View()), ResetPassword(clock, selector, secret, accepted, hash))
      ensures r == ErrorOf(old(View()), ResetPassword(clock, selector, secret, accepted, hash))
    {
      var usersBefore, tokensBefore, sessionsBefore := users, tokens, sessions;
      r := ResetStatements(clock, selector, secret, accepted, hash);
      if r.Some? {
        users, tokens, sessions := usersBefore, tokensBefore, sessionsBefore;
      }
    }

    method Change(user: Uuid, matches: bool, accepted: bool, hash: Hash) returns (r: Option<AuthError>)
      modifies this`users, this`tokens, this`sessions
      ensures View() == Step(old(View()), ChangePassword(user, matches, accepted, hash))
      ensures r == ErrorOf(old(View()), ChangePassword(user, matches, accepted, hash))
    {
      if user !in users || users[user].password.None? {
        return Some(DependencyError);
      }
      var status := StatusError(users[user].status);
      if status.Some? {
        return status;
      }
      if !matches {
        return Some(InvalidCredentials);
      }
      if !accepted {
        return Some(PasswordRejected);
      }
      users := users[user := users[user].(password := Some(hash), version := users[user].version + 1)];
      tokens := Invalidate(tokens, user, PASSWORD_RESET);
      sessions := EndSessions(sessions, user);
      return None;
    }

    method VerifyStatements(clock: Clock, selector: Uuid, secret: seq<int>) returns (r: Option<AuthError>)
      modifies this`users, this`tokens, this`verifiedBy
      ensures var done := Verify(old(View()), clock, selector, secret);
        if done.Ok? then r == None && View() == done.value else r == Some(done.error)
    {
      if selector !in tokens || tokens[selector].purpose != EMAIL_VERIFICATION {
        return Some(InvalidRequest);
      }
      var token := tokens[selector];
      var user := token.user;
      if token.secret != secret {
        return Some(InvalidRequest);
      }
      if user !in users {
        return Some(DependencyError);
      }
      if token.consumed {
        if users[user].verified && selector in verifiedBy {
          return None;
        }
        return Some(InvalidRequest);
      }
      if clock.now >= token.expires {
        return Some(ActionTokenExpired);
      }
      var status := StatusError(users[user].status);
      if status.Some? {
        return status;
      }
      users := users[user := users[user].(verified := true)];
      if token.expires <= clock.dbNow {
        return Some(InvalidRequest);
      }
      tokens := tokens[selector := token.(consumed := true)];
      tokens := Invalidate(tokens, user, EMAIL_VERIFICATION);
      verifiedBy := verifiedBy + {selector};
      return None;
    }

    method VerifyWithToken(clock: Clock, selector: Uuid, secret: seq<int>) returns (r: Option<AuthError>)
      modifies this`users, this`tokens, this`verifiedBy
      ensures View() == Step(old(View()), VerifyEmail(clock, selector, secret))
      ensures r == ErrorOf(old(View()), VerifyEmail(clock, selector, secret))
    {
      var usersBefore, tokensBefore, verifiedBefore := users, tokens, verifiedBy;
      r := VerifyStatements(clock, selector, secret);
      if r.Some? {
        users, tokens, verifiedBy := usersBefore, tokensBefore, verifiedBefore;
      }
    }

    /** Nothing is locked or written in the database by this phase. */
    method LoginPhaseOne(login: Uuid, user: Uuid, matches: bool, required: bool) returns (r: Option<AuthError>)
      modifies this`logins
      ensures View() == Step(old(View()), StartLogin(login, user, matches, required))
      ensures r == ErrorOf(old(View()), StartLogin(login, user, matches, required))
    {
      if user !in users || users[user].password.None? || !matches {
        return Some(InvalidCredentials);
      }
      var status := StatusError(users[user].status);
      if status.Some? {
        return status;
      }
      if required && !users[user].verified {
        return Some(EmailNotVerified);
      }
      logins := logins[login := Attempt(user, users[user].password.value, users[user].version)];
      return None;
    }

    method LoginPhaseTwo(login: Uuid, required: bool, session: Uuid) returns (r: Option<AuthError>)
      modifies this`sessions
      ensures View() == Step(old(View()), FinishLogin(login, required, session))
      ensures r == ErrorOf(old(View()), FinishLogin(login, required, session))
    {
      if login !in logins {
        return Some(DependencyError);
      }
      var read := logins[login];
      if read.user !in users || users[read.user].password.None? {
        return Some(DependencyError);
      }
      var locked := users[read.user];
      if locked.password.value != read.hash || locked.version != read.version {
        return Some(InvalidCredentials);
      }
      var status := StatusError(locked.status);
      if status.Some? {
        return status;
      }
      if required && !locked.verified {
        return Some(EmailNotVerified);
      }
      if session in sessions {
        return Some(DependencyError);
      }
      sessions := sessions[session := Session(read.user, true, Some(read))];
      return None;
    }
  }

  function ErrorOf(db: Db, op: Op): Option<AuthError> {
    var r := Perform(db, op);
    if r.Ok? then None else Some(r.error)
  }
}
