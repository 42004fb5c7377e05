/**
 Sessions and their rotating refresh tokens (the rotation scheme of section 4.14.2 of
 RFC 9700): what each transaction does to the tables, and what every run keeps.
 */
module RefreshSessions {
  import opened Results
  import opened Identifiers
  import opened Credentials

  datatype SessionStatus = LIVE | REVOKED | COMPROMISED | EXPIRED

  /** `member` is the selected organization and membership. LIVE stands for the
      database's ACTIVE. Times are instants of one scale. */
  datatype Session = Session(user: Uuid, status: SessionStatus, member: Option<(Uuid, Uuid)>,
                             created: int, idle: int, absolute: int)

  datatype Token = Token(session: Uuid, parent: Option<Uuid>, replacedBy: Option<Uuid>, secret: seq<int>,
                         expires: int, consumed: bool, revoked: bool)

  /** `memberUser` is the user each membership belongs to, which never changes. */
  datatype Db = Db(users: map<Uuid, UserStatus>, memberUser: map<Uuid, Uuid>,
                   sessions: map<Uuid, Session>, tokens: map<Uuid, Token>)

  datatype SessionError =
    | RefreshTokenInvalid | RefreshTokenExpired | RefreshTokenReused
    | SessionNotFound | SessionRevoked | SessionCompromised | SessionExpired
    | UserSuspended | UserDisabled | DependencyError

  function Min(a: int, b: int): int {
    if a <= b then a else b
  }

  predicate SecretUsed(tokens: map<Uuid, Token>, secret: seq<int>) {
    exists t :: t in tokens && tokens[t].secret == secret
  }

  predicate HasChild(tokens: map<Uuid, Token>, parent: Uuid) {
    exists t :: t in tokens && tokens[t].parent == Some(parent)
  }

  /** The insert of a token row: primary key, unique hash, unique parent, positive life. */
  function InsertToken(tokens: map<Uuid, Token>, clock: Clock, newest: NewToken, session: Uuid, parent: Option<Uuid>,
                       expires: int)
      : Option<map<Uuid, Token>>
  {
    if newest.id in tokens || SecretUsed(tokens, newest.secret) || expires <= clock.dbNow then None
    else if parent.Some? && HasChild(tokens, parent.value) then None
    else Some(tokens[newest.id := Token(session, parent, None, newest.secret, expires, false, false)])
  }

  /** A context names a membership of the session's own user. */
  predicate ContextOk(db: Db, user: Uuid, member: Option<(Uuid, Uuid)>) {
    member.Some? ==> member.value.1 in db.memberUser && db.memberUser[member.value.1] == user
  }

  function NewSession(db: Db, clock: Clock, id: Uuid, user: Uuid, member: Option<(Uuid, Uuid)>,
                         idleTtl: int, absoluteTtl: int, first: NewToken): Result<Db, SessionError>
  {
    var absolute := clock.now + absoluteTtl;
    var idle := Min(clock.now + idleTtl, absolute);
    if user !in db.users || id in db.sessions || !ContextOk(db, user, member) then Err(DependencyError)
    else if idle <= clock.dbNow || absolute <= clock.dbNow then Err(DependencyError)
    else
      match InsertToken(db.tokens, clock, first, id, None, absolute)
      case None => Err(DependencyError)
      case Some(tokens) =>
        var row := Session(user, LIVE, member, clock.dbNow, idle, absolute);
        Ok(db.(sessions := db.sessions[id := row], tokens := tokens))
  }

  function RevokeTokens(tokens: map<Uuid, Token>, session: Uuid): map<Uuid, Token> {
    map t | t in tokens :: if tokens[t].session == session then tokens[t].(revoked := true) else tokens[t]
  }

  function StatusError(status: SessionStatus): SessionError {
    match status
    case COMPROMISED => SessionCompromised
    case EXPIRED => SessionExpired
    case _ => SessionRevoked
  }

  /** Marking a live session compromised and revoking its tokens. */
  function Compromise(db: Db, session: Uuid): Result<Db, SessionError> {
    if session !in db.sessions || db.sessions[session].status != LIVE then Err(SessionNotFound)
    else Ok(db.(sessions := db.sessions[session := db.sessions[session].(status := COMPROMISED)],
                tokens := RevokeTokens(db.tokens, session)))
  }

  /** The sliding deadline, capped by the fixed one; only a live, unexpired session is touched. */
  function TouchSession(db: Db, clock: Clock, session: Uuid, user: Uuid, idle: int): Option<Db> {
    if session !in db.sessions then None
    else
      var s := db.sessions[session];
      var next := Min(idle, s.absolute);
      if s.user != user || s.status != LIVE || s.idle <= clock.dbNow || s.absolute <= clock.dbNow || next <= s.created
      then None
      else Some(db.(sessions := db.sessions[session := s.(idle := next)]))
  }

  /** Reuse is committed although the call then reports an error. */
  datatype Rotation = Rotated(db: Db) | Reused(db: Db) | Refused(error: SessionError)

  /** The checks before anything is written; None when the token may be rotated or reused. */
  function TokenError(db: Db, clock: Clock, selector: Uuid, secret: seq<int>): Option<SessionError> {
    if selector !in db.tokens then Some(RefreshTokenInvalid)
    else
      var t := db.tokens[selector];
      if t.secret != secret then Some(RefreshTokenInvalid)
      else if t.revoked then Some(RefreshTokenInvalid)
      else if clock.now > t.expires then Some(RefreshTokenExpired)
      else None
  }

  function SessionStateError(db: Db, clock: Clock, session: Uuid): Option<SessionError> {
    if session !in db.sessions || db.sessions[session].user !in db.users then Some(SessionNotFound)
    else
      var s := db.sessions[session];
      if s.status != LIVE then Some(StatusError(s.status))
      else if db.users[s.user] == SUSPENDED then Some(UserSuspended)
      else if db.users[s.user] == DISABLED then Some(UserDisabled)
      else if clock.now > s.idle || clock.now > s.absolute then Some(SessionExpired)
      else None
  }

  /** Create the child, consume the token, touch the session. */
  function Replace(db: Db, clock: Clock, selector: Uuid, idleTtl: int, child: NewToken): Rotation
    requires selector in db.tokens && db.tokens[selector].session in db.sessions
  {
    var t := db.tokens[selector];
    var s := db.sessions[t.session];
    match InsertToken(db.tokens, clock, child, t.session, Some(selector), s.absolute)
    case None => Refused(DependencyError)
    case Some(tokens) =>
      if t.consumed || t.revoked || t.expires <= clock.dbNow then Refused(RefreshTokenInvalid)
      else
        var consumed := tokens[selector := t.(consumed := true, replacedBy := Some(child.id))];
        match TouchSession(db.(tokens := consumed), clock, t.session, s.user, Min(clock.now + idleTtl, s.absolute))
        case None => Refused(DependencyError)
        case Some(after) => Rotated(after)
  }

  function Rotate(db: Db, clock: Clock, selector: Uuid, secret: seq<int>, idleTtl: int, child: NewToken): Rotation {
    var early := TokenError(db, clock, selector, secret);
    if early.Some? then Refused(early.value)
    else
      var t := db.tokens[selector];
      if t.consumed then
        var marked := Compromise(db, t.session);
        if marked.Err? then Refused(marked.error) else Reused(marked.value)
      else
        var late := SessionStateError(db, clock, t.session);
        if late.Some? then Refused(late.value) else Replace(db, clock, selector, idleTtl, child)
  }

  /** Logout and explicit revocation: the owner's live session ends; its tokens are
      revoked whatever its status. */
  function RevokeOne(db: Db, actor: Uuid, session: Uuid): Result<Db, SessionError> {
    if session !in db.sessions || db.sessions[session].user != actor then Err(SessionNotFound)
    else
      var s := db.sessions[session];
      var next := if s.status == LIVE then s.(status := REVOKED) else s;
      Ok(db.(sessions := db.sessions[session := next], tokens := RevokeTokens(db.tokens, session)))
  }

  function EndWhere(db: Db, ended: set<Uuid>): map<Uuid, Session> {
    map s | s in db.sessions ::
      if s in ended && db.sessions[s].status == LIVE then db.sessions[s].(status := REVOKED) else db.sessions[s]
  }

  function RevokeWhere(db: Db, ended: set<Uuid>): map<Uuid, Token> {
    map t | t in db.tokens :: if db.tokens[t].session in ended then db.tokens[t].(revoked := true) else db.tokens[t]
  }

  function EndSessions(db: Db, ended: set<Uuid>): Db {
    db.(sessions := EndWhere(db, ended), tokens := RevokeWhere(db, ended))
  }

  function SessionsOfUser(db: Db, user: Uuid): set<Uuid> {
    set s | s in db.sessions && db.sessions[s].user == user
  }

  function SessionsOfMember(db: Db, org: Uuid, membership: Uuid): set<Uuid> {
    set s | s in db.sessions && db.sessions[s].member == Some((org, membership))
  }

  predicate InOrganization(s: Session, org: Uuid) {
    s.member.Some? && s.member.value.0 == org
  }

  /** Archiving revokes the organization's live sessions and the tokens of those. */
  function LiveInOrganization(db: Db, org: Uuid): set<Uuid> {
    set s | s in db.sessions && InOrganization(db.sessions[s], org) && db.sessions[s].status == LIVE
  }

  function SwitchContext(db: Db, clock: Clock, session: Uuid, user: Uuid, member: Option<(Uuid, Uuid)>): Option<Db> {
    if session !in db.sessions || !ContextOk(db, user, member) then None
    else
      var s := db.sessions[session];
      if s.user != user || s.status != LIVE || s.idle <= clock.dbNow || s.absolute <= clock.dbNow then None
      else Some(db.(sessions := db.sessions[session := s.(member := member)]))
  }

  /** `idle` of a touch is whatever some request read earlier; `membership` revocation is
      called with the membership's user. */
  datatype Op =
    | Create(clock: Clock, id: Uuid, user: Uuid, member: Option<(Uuid, Uuid)>, idleTtl: int, absoluteTtl: int,
             first: NewToken)
    | RotateToken(clock: Clock, selector: Uuid, secret: seq<int>, idleTtl: int, child: NewToken)
    | Revoke(actor: Uuid, session: Uuid)
    | RevokeAllOfUser(user: Uuid)
    | RevokeMembership(org: Uuid, membership: Uuid)
    | ArchiveOrganization(org: Uuid)
    | Touch(clock: Clock, session: Uuid, user: Uuid, idle: int)
    | Switch(clock: Clock, session: Uuid, user: Uuid, member: Option<(Uuid, Uuid)>)
    | SetUser(user: Uuid, userStatus: UserStatus)
    | AddMember(membership: Uuid, user: Uuid)

  function Step(db: Db, op: Op): Db {
    match op
    case Create(clock, id, user, member, idleTtl, absoluteTtl, first) =>
      var r := NewSession(db, clock, id, user, member, idleTtl, absoluteTtl, first);
      if r.Ok? then r.value else db
    case RotateToken(clock, selector, secret, idleTtl, child) =>
      var r := Rotate(db, clock, selector, secret, idleTtl, child);
      if r.Refused? then db else r.db
    case Revoke(actor, session) =>
      var r := RevokeOne(db, actor, session);
      if r.Ok? then r.value else db
    case RevokeAllOfUser(user) => EndSessions(db, SessionsOfUser(db, user))
    case RevokeMembership(org, membership) => EndSessions(db, SessionsOfMember(db, org, membership))
    case ArchiveOrganization(org) => EndSessions(db, LiveInOrganization(db, org))
    case Touch(clock, session, user, idle) =>
      var r := TouchSession(db, clock, session, user, idle);
      if r.Some? then r.value else db
    case Switch(clock, session, user, member) =>
      var r := SwitchContext(db, clock, session, user, member);
      if r.Some? then r.value else db
    case SetUser(user, status) => db.(users := db.users[user := status])
    case AddMember(membership, user) =>
      if membership in db.memberUser then db else db.(memberUser := db.memberUser[membership := user])
  }

  function Exec(db: Db, ops: seq<Op>): Db {
    if ops == [] then db else Step(Exec(db, ops[..|ops| - 1]), ops[|ops| - 1])
  }

  const EMPTY := Db(map[], map[], map[], map[])

  // ----- the chain invariant -----

  /** `chain` lists the session's tokens from the first to the newest, linked both ways. */
  ghost predicate IsChain(tokens: map<Uuid, Token>, session: Uuid, chain: seq<Uuid>) {
    && |chain| > 0
    && (forall t :: t in chain <==> t in tokens && tokens[t].session == session)
    && (forall i, j :: 0 <= i < j < |chain| ==> chain[i] != chain[j])
    && (forall i :: 0 <= i < |chain| ==> LinkOk(tokens, chain, i))
  }

  predicate LinkOk(tokens: map<Uuid, Token>, chain: seq<Uuid>, i: nat)
    requires i < |chain|
  {
    && chain[i] in tokens
    && tokens[chain[i]].parent == (if i == 0 then None else Some(chain[i - 1]))
    && tokens[chain[i]].replacedBy == (if i == |chain| - 1 then None else Some(chain[i + 1]))
    && (tokens[chain[i]].consumed <==> i < |chain| - 1)
  }

  ghost predicate HasChain(tokens: map<Uuid, Token>, session: Uuid) {
    exists chain :: IsChain(tokens, session, chain)
  }

  predicate TokenOk(db: Db, t: Uuid)
    requires t in db.tokens
  {
    var token := db.tokens[t];
    && token.session in db.sessions
    && token.expires == db.sessions[token.session].absolute
    && (token.revoked <==> db.sessions[token.session].status != LIVE)
  }

  predicate SessionOk(db: Db, s: Uuid)
    requires s in db.sessions
  {
    var session := db.sessions[s];
    session.user in db.users && session.idle <= session.absolute && ContextOk(db, session.user, session.member)
  }

  ghost predicate Inv(db: Db) {
    && (forall t :: t in db.tokens ==> TokenOk(db, t))
    && (forall s :: s in db.sessions ==> SessionOk(db, s) && HasChain(db.tokens, s))
  }

  predicate Usable(t: Token) {
    !t.consumed && !t.revoked
  }

  /** Same lineage: the tables agree on everything a chain is made of. */
  predicate SameLineage(before: map<Uuid, Token>, after: map<Uuid, Token>, session: Uuid) {
    && (forall t :: t in before && before[t].session == session ==>
          t in after && after[t].session == session && after[t].parent == before[t].parent
          && after[t].replacedBy == before[t].replacedBy && after[t].consumed == before[t].consumed)
    && (forall t :: t in after && after[t].session == session ==> t in before && before[t].session == session)
  }

  lemma ChainStays(before: map<Uuid, Token>, after: map<Uuid, Token>, session: Uuid)
    requires HasChain(before, session) && SameLineage(before, after, session)
    ensures HasChain(after, session)
  {
    var chain :| IsChain(before, session, chain);
    forall i | 0 <= i < |chain| ensures LinkOk(after, chain, i) {
      assert LinkOk(before, chain, i);
      assert chain[i] in chain;
    }
    assert IsChain(after, session, chain);
  }

  lemma CreateKeepsInv(db: Db, clock: Clock, id: Uuid, user: Uuid, member: Option<(Uuid, Uuid)>,
                       idleTtl: int, absoluteTtl: int, first: NewToken)
    requires Inv(db) && NewSession(db, clock, id, user, member, idleTtl, absoluteTtl, first).Ok?
    ensures Inv(NewSession(db, clock, id, user, member, idleTtl, absoluteTtl, first).value)
  {
    var after := NewSession(db, clock, id, user, member, idleTtl, absoluteTtl, first).value;
    assert forall t :: t in db.tokens ==> TokenOk(db, t);
    forall t | t in after.tokens ensures TokenOk(after, t) {
    }
    forall s | s in after.sessions ensures SessionOk(after, s) && HasChain(after.tokens, s) {
      if s == id {
        var chain := [first.id];
        assert LinkOk(after.tokens, chain, 0);
        assert IsChain(after.tokens, id, chain);
      } else {
        assert SessionOk(db, s);
        ChainStays(db.tokens, after.tokens, s);
      }
    }
  }

  /** A rotation extends the chain of its session by the child. */
  lemma ReplaceExtendsChain(tokens: map<Uuid, Token>, after: map<Uuid, Token>, selector: Uuid, child: Uuid)
    requires selector in tokens && child !in tokens && !tokens[selector].consumed
    requires child in after && after[child].session == tokens[selector].session && after[child].parent == Some(selector)
    requires after[child].replacedBy == None && !after[child].consumed
    requires var used := tokens[selector].(consumed := true, replacedBy := Some(child));
      after == tokens[child := after[child]][selector := used]
    requires HasChain(tokens, tokens[selector].session)
    ensures HasChain(after, tokens[selector].session)
  {
    var session := tokens[selector].session;
    var chain :| IsChain(tokens, session, chain);
    assert selector in chain;
    var k :| 0 <= k < |chain| && chain[k] == selector;
    assert LinkOk(tokens, chain, k);
    assert k == |chain| - 1;
    var longer := chain + [child];
    forall i | 0 <= i < |longer| ensures LinkOk(after, longer, i) {
      if i < |chain| {
        assert LinkOk(tokens, chain, i);
        assert chain[i] in chain && chain[i] != child;
      }
    }
    forall t ensures t in longer <==> t in after && after[t].session == session {
      assert t in longer <==> t in chain || t == child;
    }
    assert IsChain(after, session, longer);
  }

  lemma ReplaceKeepsInv(db: Db, clock: Clock, selector: Uuid, idleTtl: int, child: NewToken)
    requires Inv(db) && selector in db.tokens && db.tokens[selector].session in db.sessions
    requires Replace(db, clock, selector, idleTtl, child).Rotated?
    ensures Inv(Replace(db, clock, selector, idleTtl, child).db)
  {
    var after := Replace(db, clock, selector, idleTtl, child).db;
    var session := db.tokens[selector].session;
    assert TokenOk(db, selector);
    assert SessionOk(db, session) && HasChain(db.tokens, session);
    ReplaceExtendsChain(db.tokens, after.tokens, selector, child.id);
    forall t | t in after.tokens ensures TokenOk(after, t) {
      if t in db.tokens { assert TokenOk(db, t); }
    }
    forall s | s in after.sessions ensures SessionOk(after, s) && HasChain(after.tokens, s) {
      assert SessionOk(db, s);
      if s != session {
        ChainStays(db.tokens, after.tokens, s);
      }
    }
  }

  /** Ending sessions together with their tokens, for any set of sessions. */
  lemma EndingKeepsInv(db: Db, ended: set<Uuid>, after: Db)
    requires Inv(db) && after.users == db.users && after.memberUser == db.memberUser
    requires after.sessions.Keys == db.sessions.Keys && after.tokens == RevokeWhere(db, ended)
    requires forall s :: s in db.sessions ==>
      (if s in ended then after.sessions[s].status != LIVE
                          && after.sessions[s] == db.sessions[s].(status := after.sessions[s].status)
       else after.sessions[s] == db.sessions[s])
    ensures Inv(after)
  {
    forall t | t in after.tokens ensures TokenOk(after, t) {
      assert TokenOk(db, t);
    }
    forall s | s in after.sessions ensures SessionOk(after, s) && HasChain(after.tokens, s) {
      assert SessionOk(db, s);
      ChainStays(db.tokens, after.tokens, s);
    }
  }

  lemma EndSessionsKeepsInv(db: Db, ended: set<Uuid>)
    requires Inv(db) && ended <= db.sessions.Keys
    ensures Inv(EndSessions(db, ended))
  {
    EndingKeepsInv(db, ended, EndSessions(db, ended));
  }

  lemma RevokeTokensIsWhere(db: Db, session: Uuid)
    ensures RevokeTokens(db.tokens, session) == RevokeWhere(db, {session})
  {
  }

  /** A step that touches no token, and of the sessions only contexts and idle deadlines. */
  lemma SessionEditKeepsInv(db: Db, after: Db)
    requires Inv(db) && after.tokens == db.tokens && after.sessions.Keys == db.sessions.Keys
    requires forall s :: s in db.sessions ==>
      && after.sessions[s] == db.sessions[s].(member := after.sessions[s].member, idle := after.sessions[s].idle)
      && SessionOk(after, s)
    ensures Inv(after)
  {
    forall t | t in after.tokens ensures TokenOk(after, t) {
      assert TokenOk(db, t);
    }
  }

  lemma RotateKeepsInv(db: Db, clock: Clock, selector: Uuid, secret: seq<int>, idleTtl: int, child: NewToken)
    requires Inv(db)
    ensures var r := Rotate(db, clock, selector, secret, idleTtl, child); r.Refused? || Inv(r.db)
  {
    var r := Rotate(db, clock, selector, secret, idleTtl, child);
    match r
    case Rotated(_) => ReplaceKeepsInv(db, clock, selector, idleTtl, child);
    case Reused(after) =>
      var session := db.tokens[selector].session;
      RevokeTokensIsWhere(db, session);
      EndingKeepsInv(db, {session}, after);
    case Refused(_) =>
  }

  lemma StepKeepsInv(db: Db, op: Op)
    requires Inv(db)
    ensures Inv(Step(db, op))
  {
    match op
    case Create(clock, id, user, member, idleTtl, absoluteTtl, first) =>
      if NewSession(db, clock, id, user, member, idleTtl, absoluteTtl, first).Ok? {
        CreateKeepsInv(db, clock, id, user, member, idleTtl, absoluteTtl, first);
      }
    case RotateToken(clock, selector, secret, idleTtl, child) =>
      RotateKeepsInv(db, clock, selector, secret, idleTtl, child);
    case Revoke(actor, session) =>
      RevokeTokensIsWhere(db, session);
      if RevokeOne(db, actor, session).Ok? { EndingKeepsInv(db, {session}, Step(db, op)); }
    case RevokeAllOfUser(user) => EndSessionsKeepsInv(db, SessionsOfUser(db, user));
    case RevokeMembership(org, membership) => EndSessionsKeepsInv(db, SessionsOfMember(db, org, membership));
    case ArchiveOrganization(org) => EndSessionsKeepsInv(db, LiveInOrganization(db, org));
    case _ => EditKeepsInv(db, op);
  }

  lemma EditKeepsInv(db: Db, op: Op)
    requires Inv(db) && (op.Touch? || op.Switch? || op.SetUser? || op.AddMember?)
    ensures Inv(Step(db, op))
  {
    SessionsStayOk(db, op);
    SessionEditKeepsInv(db, Step(db, op));
  }

  lemma SessionsStayOk(db: Db, op: Op)
    requires forall s :: s in db.sessions ==> SessionOk(db, s)
    requires (op.Touch? || op.Switch? || op.SetUser? || op.AddMember?)
    ensures var after := Step(db, op);
      && after.tokens == db.tokens && after.sessions.Keys == db.sessions.Keys
      && forall s :: s in db.sessions ==>
           after.sessions[s] == db.sessions[s].(member := after.sessions[s].member, idle := after.sessions[s].idle)
           && SessionOk(after, s)
  {
    forall s | s in db.sessions ensures SessionOk(Step(db, op), s) {
      assert SessionOk(db, s);
    }
  }

  lemma {:induction false} EveryRunKeepsInv(db: Db, ops: seq<Op>)
    requires Inv(db)
    ensures Inv(Exec(db, ops))
  {
    if ops != [] {
      EveryRunKeepsInv(db, ops[..|ops| - 1]);
      StepKeepsInv(Exec(db, ops[..|ops| - 1]), ops[|ops| - 1]);
    }
  }

  // ----- what the invariant says about one session -----

  predicate UsableOf(db: Db, session: Uuid, t: Uuid) {
    t in db.tokens && db.tokens[t].session == session && Usable(db.tokens[t])
  }

  predicate SameParent(db: Db, session: Uuid, t: Uuid, u: Uuid) {
    && t in db.tokens && u in db.tokens && db.tokens[t].session == session
    && db.tokens[t].parent.Some? && db.tokens[t].parent == db.tokens[u].parent
  }

  /** In every reachable state: one parent chain per session, whose tokens but the newest
      are all consumed; a live session has exactly one usable token, its newest, any
      other session none; no token has two children. */
  lemma ChainAndUsable(ops: seq<Op>, session: Uuid)
    requires session in Exec(EMPTY, ops).sessions
    ensures var db := Exec(EMPTY, ops);
      && HasChain(db.tokens, session)
      && db.sessions[session].idle <= db.sessions[session].absolute
      && (db.sessions[session].status == LIVE ==>
            exists t :: UsableOf(db, session, t))
      && (forall t, u :: UsableOf(db, session, t) && UsableOf(db, session, u) ==> t == u)
      && (db.sessions[session].status != LIVE ==>
            forall t :: t in db.tokens && db.tokens[t].session == session ==> db.tokens[t].revoked)
      && (forall t, u :: SameParent(db, session, t, u) ==> t == u)
  {
    EveryRunKeepsInv(EMPTY, ops);
    var db := Exec(EMPTY, ops);
    assert SessionOk(db, session) && HasChain(db.tokens, session);
    assert forall t :: t in db.tokens ==> TokenOk(db, t);
    var chain :| IsChain(db.tokens, session, chain);
    OnlyNewestUsable(db.tokens, session, chain);
    var newest := chain[|chain| - 1];
    assert newest in chain && LinkOk(db.tokens, chain, |chain| - 1);
    assert db.sessions[session].status == LIVE ==> UsableOf(db, session, newest);
    forall t, u | SameParent(db, session, t, u) ensures t == u {
      OneChildEach(db, t, u, session, chain);
    }
  }

  lemma OnlyNewestUsable(tokens: map<Uuid, Token>, session: Uuid, chain: seq<Uuid>)
    requires IsChain(tokens, session, chain)
    ensures forall t :: t in tokens && tokens[t].session == session && !tokens[t].consumed ==> t == chain[|chain| - 1]
  {
    forall t | t in tokens && tokens[t].session == session && !tokens[t].consumed ensures t == chain[|chain| - 1] {
      assert t in chain;
      var i :| 0 <= i < |chain| && chain[i] == t;
      assert LinkOk(tokens, chain, i);
    }
  }

  /** In a chain the parent of a token is of the same session and is replaced by it. */
  lemma ParentNamesChild(db: Db, session: Uuid, chain: seq<Uuid>, t: Uuid)
    requires IsChain(db.tokens, session, chain) && t in db.tokens && db.tokens[t].session == session
    requires db.tokens[t].parent.Some?
    ensures var p := db.tokens[t].parent.value;
      p in db.tokens && db.tokens[p].session == session && db.tokens[p].replacedBy == Some(t)
  {
    assert t in chain;
    var i :| 0 <= i < |chain| && chain[i] == t;
    assert LinkOk(db.tokens, chain, i);
    assert LinkOk(db.tokens, chain, i - 1);
    assert chain[i - 1] in chain;
  }

  lemma OneChildEach(db: Db, t: Uuid, u: Uuid, session: Uuid, chain: seq<Uuid>)
    requires Inv(db) && IsChain(db.tokens, session, chain) && SameParent(db, session, t, u)
    ensures t == u
  {
    ParentNamesChild(db, session, chain, t);
    assert TokenOk(db, u);
    var other := db.tokens[u].session;
    assert HasChain(db.tokens, other);
    var otherChain :| IsChain(db.tokens, other, otherChain);
    ParentNamesChild(db, other, otherChain, u);
  }

  // ----- reuse detection and the end of a session -----

  /** Presenting a consumed, unrevoked, unexpired token with its right secret commits the
      session to COMPROMISED and revokes every token of it. */
  lemma ReuseIsCaught(db: Db, clock: Clock, selector: Uuid, idleTtl: int, child: NewToken)
    requires Inv(db) && selector in db.tokens
    requires var t := db.tokens[selector]; t.consumed && !t.revoked && clock.now <= t.expires
    ensures var t := db.tokens[selector];
      var r := Rotate(db, clock, selector, t.secret, idleTtl, child);
      && r.Reused?
      && r.db.sessions == db.sessions[t.session := db.sessions[t.session].(status := COMPROMISED)]
      && (forall u :: u in r.db.tokens && r.db.tokens[u].session == t.session ==> r.db.tokens[u].revoked)
      && r.db.tokens.Keys == db.tokens.Keys
  {
    assert TokenOk(db, selector);
  }

  /** Rotation succeeds exactly on a usable, unexpired token with its secret, of an active
      user's session that is not idle, with a fresh child: every other check is implied. */
  lemma RotationSucceedsIff(db: Db, clock: Clock, selector: Uuid, secret: seq<int>, idleTtl: int, child: NewToken)
    requires Inv(db)
    ensures Rotate(db, clock, selector, secret, idleTtl, child).Rotated? <==>
      && selector in db.tokens && Usable(db.tokens[selector]) && db.tokens[selector].secret == secret
      && var s := db.sessions[db.tokens[selector].session];
      && db.users[s.user] == ACTIVE && clock.now <= s.idle && clock.dbNow < s.idle
      && s.created < Min(clock.now + idleTtl, s.absolute)
      && child.id !in db.tokens && !SecretUsed(db.tokens, child.secret)
  {
    if selector in db.tokens {
      assert TokenOk(db, selector);
      var t := db.tokens[selector];
      assert SessionOk(db, t.session) && HasChain(db.tokens, t.session);
      if !t.consumed { UnconsumedHasNoChild(db, selector); }
    }
  }

  lemma ParentIsConsumed(db: Db, t: Uuid)
    requires Inv(db) && t in db.tokens && db.tokens[t].parent.Some?
    ensures db.tokens[t].parent.value in db.tokens && db.tokens[db.tokens[t].parent.value].consumed
  {
    assert TokenOk(db, t);
    var session := db.tokens[t].session;
    assert HasChain(db.tokens, session);
    var chain :| IsChain(db.tokens, session, chain);
    ParentNamesChild(db, session, chain, t);
    var p := db.tokens[t].parent.value;
    assert p in chain;
    var k :| 0 <= k < |chain| && chain[k] == p;
    assert LinkOk(db.tokens, chain, k);
  }

  lemma UnconsumedHasNoChild(db: Db, selector: Uuid)
    requires Inv(db) && selector in db.tokens && !db.tokens[selector].consumed
    ensures !HasChild(db.tokens, selector)
  {
    forall t | t in db.tokens && db.tokens[t].parent.Some? ensures db.tokens[t].parent != Some(selector) {
      ParentIsConsumed(db, t);
    }
  }

  /** What never changes about a session, and about one that has ended. */
  predicate SessionKept(before: Db, after: Db, s: Uuid)
    requires s in before.sessions
  {
    && s in after.sessions
    && after.sessions[s].absolute == before.sessions[s].absolute && after.sessions[s].user == before.sessions[s].user
    && (before.sessions[s].status != LIVE ==> after.sessions[s].status == before.sessions[s].status)
  }

  predicate TokenKept(before: Db, after: Db, t: Uuid)
    requires t in before.tokens
  {
    && t in after.tokens && after.tokens[t].session == before.tokens[t].session
    && after.tokens[t].secret == before.tokens[t].secret && after.tokens[t].expires == before.tokens[t].expires
    && (before.tokens[t].consumed ==>
          after.tokens[t].consumed && after.tokens[t].replacedBy == before.tokens[t].replacedBy)
    && (before.tokens[t].revoked ==> after.tokens[t].revoked)
  }

  /** New tokens go to new sessions or to live ones. */
  predicate GrowsLiveOnly(before: Db, after: Db) {
    forall t :: t in after.tokens && t !in before.tokens ==>
      var s := after.tokens[t].session; s in before.sessions ==> before.sessions[s].status == LIVE
  }

  predicate RowsKept(before: Db, after: Db) {
    && (forall s :: s in before.sessions ==> SessionKept(before, after, s))
    && (forall t :: t in before.tokens ==> TokenKept(before, after, t))
    && GrowsLiveOnly(before, after)
  }

  lemma RotateKeepsRows(db: Db, clock: Clock, selector: Uuid, secret: seq<int>, idleTtl: int, child: NewToken)
    ensures var r := Rotate(db, clock, selector, secret, idleTtl, child); r.Refused? || RowsKept(db, r.db)
  {
  }

  lemma EndKeepsRows(db: Db, ended: set<Uuid>)
    ensures RowsKept(db, EndSessions(db, ended))
  {
  }

  lemma StepKeepsRows(db: Db, op: Op)
    ensures RowsKept(db, Step(db, op))
  {
    match op
    case RotateToken(clock, selector, secret, idleTtl, child) =>
      RotateKeepsRows(db, clock, selector, secret, idleTtl, child);
    case RevokeAllOfUser(user) => EndKeepsRows(db, SessionsOfUser(db, user));
    case RevokeMembership(org, membership) => EndKeepsRows(db, SessionsOfMember(db, org, membership));
    case ArchiveOrganization(org) => EndKeepsRows(db, LiveInOrganization(db, org));
    case _ => OtherStepKeepsRows(db, op);
  }

  lemma OtherStepKeepsRows(db: Db, op: Op)
    requires !op.RotateToken? && !op.RevokeAllOfUser? && !op.RevokeMembership? && !op.ArchiveOrganization?
    ensures RowsKept(db, Step(db, op))
  {
  }

  lemma {:induction false} RunKeepsRows(db: Db, ops: seq<Op>)
    ensures RowsKept(db, Exec(db, ops))
  {
    if ops != [] {
      var before := Exec(db, ops[..|ops| - 1]);
      RunKeepsRows(db, ops[..|ops| - 1]);
      StepKeepsRows(before, ops[|ops| - 1]);
      RowsCompose(db, before, Exec(db, ops));
    }
  }

  lemma RowsCompose(a: Db, b: Db, c: Db)
    requires RowsKept(a, b) && RowsKept(b, c)
    ensures RowsKept(a, c)
  {
    forall s | s in a.sessions ensures SessionKept(a, c, s) {
      assert SessionKept(a, b, s);
      assert SessionKept(b, c, s);
    }
    forall t | t in a.tokens ensures TokenKept(a, c, t) {
      assert TokenKept(a, b, t);
      assert TokenKept(b, c, t);
    }
    forall t | t in c.tokens && t !in a.tokens && c.tokens[t].session in a.sessions
      ensures a.sessions[c.tokens[t].session].status == LIVE
    {
      assert SessionKept(a, b, c.tokens[t].session);
      if t in b.tokens { assert TokenKept(b, c, t); }
    }
  }

  /** Once a session has ended, revoked or compromised, it keeps that status, gets no new
      token, and no token of it ever rotates or counts as reuse again, in any run. */
  lemma EndedForGood(db: Db, session: Uuid, ops: seq<Op>, clock: Clock, selector: Uuid, secret: seq<int>,
                     idleTtl: int, child: NewToken)
    requires Inv(db) && session in db.sessions && db.sessions[session].status != LIVE
    ensures var later := Exec(db, ops);
      && session in later.sessions && later.sessions[session].status == db.sessions[session].status
      && (selector in later.tokens && later.tokens[selector].session == session ==>
            && selector in db.tokens
            && Rotate(later, clock, selector, secret, idleTtl, child) == Refused(RefreshTokenInvalid))
  {
    var later := Exec(db, ops);
    RunKeepsRows(db, ops);
    EveryRunKeepsInv(db, ops);
    assert SessionKept(db, later, session);
    if selector in later.tokens && later.tokens[selector].session == session {
      assert TokenOk(later, selector);
    }
  }

  /** Each token rotates at most once, whatever happens in between; a second attempt is
      refused or ends the session. */
  lemma RotatesAtMostOnce(db: Db, clock: Clock, selector: Uuid, secret: seq<int>, idleTtl: int, child: NewToken,
                          ops: seq<Op>, later: Clock, again: seq<int>, laterTtl: int, laterChild: NewToken)
    requires Inv(db) && Rotate(db, clock, selector, secret, idleTtl, child).Rotated?
    ensures var state := Exec(Rotate(db, clock, selector, secret, idleTtl, child).db, ops);
      !Rotate(state, later, selector, again, laterTtl, laterChild).Rotated?
  {
    var after := Rotate(db, clock, selector, secret, idleTtl, child).db;
    RotateKeepsInv(db, clock, selector, secret, idleTtl, child);
    assert after.tokens[selector].consumed;
    RunKeepsRows(after, ops);
    assert TokenKept(after, Exec(after, ops), selector);
  }

  // ----- the service -----

  /** The ids a loop has handled. */
  ghost function Done(ids: seq<Uuid>, i: nat): set<Uuid>
    requires i <= |ids|
  {
    set k | 0 <= k < i :: ids[k]
  }

  lemma DoneNext(ids: seq<Uuid>, i: nat)
    requires i < |ids|
    ensures Done(ids, i + 1) == Done(ids, i) + {ids[i]}
  {
  }

  lemma DoneAll(ids: seq<Uuid>, all: set<Uuid>)
    requires forall s :: s in ids <==> s in all
    ensures Done(ids, |ids|) == all
  {
    forall s | s in all ensures s in Done(ids, |ids|) {
      var k :| 0 <= k < |ids| && ids[k] == s;
    }
    forall s | s in Done(ids, |ids|) ensures s in all {
      var k :| 0 <= k < |ids| && ids[k] == s;
      assert s in ids;
    }
  }

  lemma RevokeNext(before: Db, done: set<Uuid>, id: Uuid)
    ensures RevokeTokens(RevokeWhere(before, done), id) == RevokeWhere(before, done + {id})
  {
  }

  lemma EndNext(before: Db, done: set<Uuid>, id: Uuid)
    requires id in before.sessions
    ensures EndWhere(before, done + {id}) == var now := EndWhere(before, done);
      if now[id].status == LIVE then now[id := now[id].(status := REVOKED)] else now
  {
  }

  lemma NothingDone(before: Db)
    ensures EndWhere(before, {}) == before.sessions && RevokeWhere(before, {}) == before.tokens
  {
  }

  class Sessions {
    var users: map<Uuid, UserStatus>
    var memberUser: map<Uuid, Uuid>
    var sessions: map<Uuid, Session>
    var tokens: map<Uuid, Token>

    ghost function View(): Db
      reads this
    {
      Db(users, memberUser, sessions, tokens)
    }

    constructor ()
      ensures View() == EMPTY
    {
      users, memberUser, sessions, tokens := map[], map[], map[], map[];
    }

    method CreateSession(clock: Clock, id: Uuid, user: Uuid, member: Option<(Uuid, Uuid)>, idleTtl: int,
                         absoluteTtl: int, first: NewToken) returns (r: Option<SessionError>)
      modifies this`sessions, this`tokens
      ensures View() == Step(old(View()), Create(clock, id, user, member, idleTtl, absoluteTtl, first))
      ensures r.None? <==> NewSession(old(View()), clock, id, user, member, idleTtl, absoluteTtl, first).Ok?
    {
      var absoluteExpiresAt := clock.now + absoluteTtl;
      var idleExpiresAt := clock.now + idleTtl;
      if idleExpiresAt > absoluteExpiresAt {
        idleExpiresAt := absoluteExpiresAt;
      }
      if user !in users || id in sessions
         || (member.Some? && (member.value.1 !in memberUser || memberUser[member.value.1] != user))
         || idleExpiresAt <= clock.dbNow || absoluteExpiresAt <= clock.dbNow {
        return Some(DependencyError);
      }
      var inserted := InsertToken(tokens, clock, first, id, None, absoluteExpiresAt);
      if inserted.None? {
        return Some(DependencyError);
      }
      sessions := sessions[id := Session(user, LIVE, member, clock.dbNow, idleExpiresAt, absoluteExpiresAt)];
      tokens := inserted.value;
      return None;
    }

    /** The transaction's statements; what a failed one has written is still there. */
    method RotateStatements(clock: Clock, selector: Uuid, secret: seq<int>, idleTtl: int, child: NewToken)
      returns (r: Option<SessionError>, reuse: bool)
      modifies this`sessions, this`tokens
      ensures var done := Rotate(old(View()), clock, selector, secret, idleTtl, child);
        && (r.Some? <==> done.Refused?) && (r.Some? ==> r.value == done.error)
        && (r.None? ==> View() == done.db && (reuse <==> done.Reused?))
    {
      reuse := false;
      if selector !in tokens {
        return Some(RefreshTokenInvalid), false;
      }
      var token := tokens[selector];
      if token.secret != secret || token.revoked {
        return Some(RefreshTokenInvalid), false;
      }
      if clock.now > token.expires {
        return Some(RefreshTokenExpired), false;
      }
      if token.consumed {
        if token.session !in sessions || sessions[token.session].status != LIVE {
          return Some(SessionNotFound), false;
        }
        sessions := sessions[token.session := sessions[token.session].(status := COMPROMISED)];
        tokens := RevokeTokens(tokens, token.session);
        return None, true;
      }
      if token.session !in sessions || sessions[token.session].user !in users {
        return Some(SessionNotFound), false;
      }
      var session := sessions[token.session];
      if session.status != LIVE {
        return Some(StatusError(session.status)), false;
      }
      match users[session.user] {
        case SUSPENDED => return Some(UserSuspended), false;
        case DISABLED => return Some(UserDisabled), false;
        case ACTIVE =>
      }
      if clock.now > session.idle || clock.now > session.absolute {
        return Some(SessionExpired), false;
      }
      var newIdle := clock.now + idleTtl;
      if newIdle > session.absolute {
        newIdle := session.absolute;
      }
      var inserted := InsertToken(tokens, clock, child, token.session, Some(selector), session.absolute);
      if inserted.None? {
        return Some(DependencyError), false;
      }
      tokens := inserted.value;
      if token.expires <= clock.dbNow {
        return Some(RefreshTokenInvalid), false;
      }
      tokens := tokens[selector := token.(consumed := true, replacedBy := Some(child.id))];
      if session.idle <= clock.dbNow || session.absolute <= clock.dbNow
         || Min(newIdle, session.absolute) <= session.created {
        return Some(DependencyError), false;
      }
      sessions := sessions[token.session := session.(idle := Min(newIdle, session.absolute))];
      return None, false;
    }

    /** Commits a rotation and a detected reuse, rolls back everything else; reuse is
        reported as an error after the commit. */
    method RotateRefreshToken(clock: Clock, selector: Uuid, secret: seq<int>, idleTtl: int, child: NewToken)
      returns (r: Option<SessionError>)
      modifies this`sessions, this`tokens
      ensures View() == Step(old(View()), RotateToken(clock, selector, secret, idleTtl, child))
      ensures var done := Rotate(old(View()), clock, selector, secret, idleTtl, child);
        r == match done case Rotated(_) => None case Reused(_) => Some(RefreshTokenReused) case Refused(e) => Some(e)
    {
      var sessionsBefore, tokensBefore := sessions, tokens;
      var reuse;
      r, reuse := RotateStatements(clock, selector, secret, idleTtl, child);
      if r.Some? {
        sessions, tokens := sessionsBefore, tokensBefore;
        return r;
      }
      if reuse {
        return Some(RefreshTokenReused);
      }
    }

    method RevokeSession(actor: Uuid, target: Uuid) returns (r: Option<SessionError>)
      modifies this`sessions, this`tokens
      ensures View() == Step(old(View()), Revoke(actor, target))
      ensures r.None? <==> target in old(sessions) && old(sessions)[target].user == actor
    {
      if target !in sessions || sessions[target].user != actor {
        return Some(SessionNotFound);
      }
      if sessions[target].status == LIVE {
        sessions := sessions[target := sessions[target].(status := REVOKED)];
      }
      assert sessions == old(sessions)[target := sessions[target]];
      tokens := RevokeTokens(tokens, target);
      return None;
    }

    /** One bulk update of the user's live sessions, one of all the user's tokens. */
    method RevokeAllUserSessions(user: Uuid)
      modifies this`sessions, this`tokens
      ensures View() == Step(old(View()), RevokeAllOfUser(user))
    {
      ghost var before := View();
      sessions := map s | s in sessions ::
        if sessions[s].user == user && sessions[s].status == LIVE then sessions[s].(status := REVOKED)
        else sessions[s];
      assert sessions == EndWhere(before, SessionsOfUser(before, user));
      tokens := map t | t in tokens ::
        if tokens[t].session in sessions && sessions[tokens[t].session].user == user
        then tokens[t].(revoked := true) else tokens[t];
      assert tokens == RevokeWhere(before, SessionsOfUser(before, user)) by {
        assert forall s :: s in sessions && sessions[s].user == user <==> s in SessionsOfUser(before, user);
      }
    }

    /** The loop over the listed ids: each session's row, then its tokens. */
    method RevokeMembershipSessions(org: Uuid, membership: Uuid, user: Uuid, ids: seq<Uuid>)
      requires forall s :: s in ids <==> s in SessionsOfMember(View(), org, membership)
      requires membership in memberUser && user == memberUser[membership]
      requires forall s :: s in sessions ==> SessionOk(View(), s)
      modifies this`sessions, this`tokens
      ensures View() == Step(old(View()), RevokeMembership(org, membership))
    {
      ghost var before := View();
      NothingDone(before);
      for i := 0 to |ids|
        invariant sessions == EndWhere(before, Done(ids, i))
        invariant tokens == RevokeWhere(before, Done(ids, i))
        invariant users == before.users && memberUser == before.memberUser
      {
        var id := ids[i];
        assert id in ids;
        assert id in SessionsOfMember(before, org, membership) && SessionOk(before, id);
        EndNext(before, Done(ids, i), id);
        RevokeNext(before, Done(ids, i), id);
        DoneNext(ids, i);
        if sessions[id].user == user && sessions[id].status == LIVE {
          sessions := sessions[id := sessions[id].(status := REVOKED)];
        }
        tokens := RevokeTokens(tokens, id);
      }
      DoneAll(ids, SessionsOfMember(before, org, membership));
    }

    /** Archiving: the bulk update returns the ids it ended, then their tokens follow one by one. */
    method RevokeOrganizationSessions(org: Uuid, ids: seq<Uuid>)
      requires forall s :: s in ids <==> s in LiveInOrganization(View(), org)
      modifies this`sessions, this`tokens
      ensures View() == Step(old(View()), ArchiveOrganization(org))
    {
      ghost var before := View();
      NothingDone(before);
      sessions := map s | s in sessions ::
        if InOrganization(sessions[s], org) && sessions[s].status == LIVE then sessions[s].(status := REVOKED)
        else sessions[s];
      assert sessions == EndWhere(before, LiveInOrganization(before, org));
      RevokeTokensOf(ids, before);
      DoneAll(ids, LiveInOrganization(before, org));
    }

    method RevokeTokensOf(ids: seq<Uuid>, ghost before: Db)
      requires tokens == before.tokens
      modifies this`tokens
      ensures tokens == RevokeWhere(before, Done(ids, |ids|))
    {
      NothingDone(before);
      for i := 0 to |ids|
        invariant tokens == RevokeWhere(before, Done(ids, i))
      {
        RevokeNext(before, Done(ids, i), ids[i]);
        DoneNext(ids, i);
        tokens := RevokeTokens(tokens, ids[i]);
      }
    }
  }
}
