/** Refresh sessions: login, renewal, logout and logout_all, as handlers that read and then act,
    in any interleaving and by any clock. */
module Sessions {
  import opened Schema

  /** What a token says. Ids are drawn from a counter that stands for unique random ids. */
  datatype Payload = Payload(id: nat, username: string, expiredAt: int)

  /** A bearer token. Only a token that was issued verifies. */
  datatype Token = Token(payload: Payload)

  datatype Session = Session(id: nat, username: string, refreshToken: Token, isBlocked: bool, expiresAt: int)

  datatype Refusal = BadToken | WrongPassword | NotYourSession | Blocked | IncorrectUser | MismatchedToken | Expired

  datatype Response =
    | LoggedIn(session: Session, accessToken: Token)
    | Renewed(accessToken: Token)
    | LoggedOut(sessionId: nat)
    | SessionsRevoked(count: nat)
    | Unauthorized(why: Refusal)
    | NotFound
    | InternalError

  /** A request, with the user its access token authenticated where the route asks for one. */
  datatype Request =
    | Login(username: string, password: string)
    | Renew(token: Token)
    | Logout(user: string, token: Token)
    | LogoutAll(user: string)

  /** Where a handler is, with what it has read or minted so far. */
  datatype Phase =
    | Start
    | Minted(access: Payload, refresh: Payload)   // login, before CreateSession
    | Read(session: Session)                      // renewal or logout, after GetSession
    | Finished(response: Response)

  datatype Call = Call(req: Request, phase: Phase)

  /** The users and sessions tables, the configuration, and the tokens the maker has issued. */
  datatype Store = Store(
    passwords: map<string, string>,
    accessDuration: int,
    refreshDuration: int,
    issued: map<nat, Payload>,
    nextId: nat,
    sessions: map<nat, Session>)

  datatype Auth = Auth(store: Store, calls: seq<Call>)

  datatype Action =
    | Advance(i: nat, now: int)   // call i runs on to its next store call, at this time
    | Fail(i: nat)                // its next call fails, without effect
    | LoseReply(i: nat)           // the statement it is about to run takes effect, but its reply is lost

  /** VerifyToken: an issued token that has not expired. */
  predicate Verifies(d: Store, token: Token, now: int) {
    token.payload.id in d.issued && d.issued[token.payload.id] == token.payload && now <= token.payload.expiredAt
  }

  function Issue(d: Store, p: Payload): Store {
    d.(issued := d.issued[p.id := p], nextId := d.nextId + 1)
  }

  /** loginUser up to the two tokens. */
  function LoginTokens(d: Store, username: string, password: string, now: int): (Store, Phase) {
    if username !in d.passwords then (d, Finished(NotFound))
    else if password != d.passwords[username] then (d, Finished(Unauthorized(WrongPassword)))
    else
      var access := Payload(d.nextId, username, now + d.accessDuration);
      var refresh := Payload(d.nextId + 1, username, now + d.refreshDuration);
      (Issue(Issue(d, access), refresh), Minted(access, refresh))
  }

  /** CreateSession, and the answer. */
  function LoginSession(d: Store, access: Payload, refresh: Payload): (Store, Phase) {
    if refresh.id in d.sessions then (d, Finished(InternalError)) else
    var row := Session(refresh.id, refresh.username, Token(refresh), false, refresh.expiredAt);
    (d.(sessions := d.sessions[refresh.id := row]), Finished(LoggedIn(row, Token(access))))
  }

  /** renewAccessToken up to GetSession. */
  function RenewRead(d: Store, token: Token, now: int): Phase {
    if !Verifies(d, token, now) then Finished(Unauthorized(BadToken))
    else if token.payload.id !in d.sessions then Finished(NotFound)
    else Read(d.sessions[token.payload.id])
  }

  /** The chain of refusals over the session that was read, in its order. */
  function Refused(session: Session, token: Token, now: int): Option<Refusal> {
    if session.isBlocked then Some(Blocked)
    else if session.username != token.payload.username then Some(IncorrectUser)
    else if session.refreshToken != token then Some(MismatchedToken)
    else if now > session.expiresAt then Some(Expired)
    else None
  }

  /** The rest of renewAccessToken: it goes by the session as it was read. */
  function RenewMint(d: Store, token: Token, session: Session, now: int): (Store, Phase) {
    match Refused(session, token, now)
    case Some(why) => (d, Finished(Unauthorized(why)))
    case None =>
      var access := Payload(d.nextId, token.payload.username, now + d.accessDuration);
      (Issue(d, access), Finished(Renewed(Token(access))))
  }

  /** logout up to the check of is_blocked. */
  function LogoutRead(d: Store, user: string, token: Token, now: int): Phase {
    if !Verifies(d, token, now) then Finished(Unauthorized(BadToken))
    else if token.payload.id !in d.sessions then Finished(NotFound)
    else
      var session := d.sessions[token.payload.id];
      if session.username != user then Finished(Unauthorized(NotYourSession))
      else if session.isBlocked then Finished(LoggedOut(session.id))
      else Read(session)
  }

  /** BlockSession: UPDATE sessions SET is_blocked = true WHERE id = id. */
  function BlockOne(d: Store, id: nat): (Store, Phase) {
    if id !in d.sessions then (d, Finished(InternalError)) else
    (d.(sessions := d.sessions[id := d.sessions[id].(isBlocked := true)]), Finished(LoggedOut(id)))
  }

  /** The rows of BlockUserSessions: WHERE username = user AND is_blocked = false. */
  function OpenSessions(sessions: map<nat, Session>, user: string): set<nat> {
    set id | id in sessions && sessions[id].username == user && !sessions[id].isBlocked
  }

  function BlockAll(sessions: map<nat, Session>, user: string): map<nat, Session> {
    map id | id in sessions ::
      if sessions[id].username == user && !sessions[id].isBlocked then sessions[id].(isBlocked := true) else sessions[id]
  }

  /** logoutAll: one statement. */
  function LogoutEverywhere(d: Store, user: string): (Store, Phase) {
    (d.(sessions := BlockAll(d.sessions, user)), Finished(SessionsRevoked(|OpenSessions(d.sessions, user)|)))
  }

  /** What the handler does between two of its store calls. */
  function Handle(d: Store, c: Call, now: int): (Store, Phase) {
    match (c.req, c.phase)
    case (_, Finished(_)) => (d, c.phase)
    case (Login(_, _), Minted(access, refresh)) => LoginSession(d, access, refresh)
    case (Login(username, password), _) => LoginTokens(d, username, password, now)
    case (Renew(token), Read(session)) => RenewMint(d, token, session, now)
    case (Renew(token), _) => (d, RenewRead(d, token, now))
    case (Logout(_, _), Read(session)) => BlockOne(d, session.id)
    case (Logout(user, token), _) => (d, LogoutRead(d, user, token, now))
    case (LogoutAll(user), _) => LogoutEverywhere(d, user)
  }

  /** The call's next store call is a statement that writes. */
  predicate AboutToWrite(c: Call) {
    || (c.req.Login? && c.phase.Minted?)
    || (c.req.Logout? && c.phase.Read?)
    || (c.req.LogoutAll? && c.phase.Start?)
  }

  /** Which rows such a statement writes does not depend on the clock. */
  function Written(d: Store, c: Call): Store {
    if AboutToWrite(c) then Handle(d, c, 0).0 else d
  }

  function Step(s: Auth, a: Action): Auth {
    if a.i >= |s.calls| then s else
    var c := s.calls[a.i];
    match a
    case Advance(i, now) =>
      var (d, phase) := Handle(s.store, c, now);
      Auth(d, s.calls[i := c.(phase := phase)])
    case Fail(i) =>
      if c.phase.Finished? then s else s.(calls := s.calls[i := c.(phase := Finished(InternalError))])
    case LoseReply(i) =>
      if !AboutToWrite(c) then s
      else Auth(Written(s.store, c), s.calls[i := c.(phase := Finished(InternalError))])
  }

  function Exec(s: Auth, schedule: seq<Action>): Auth {
    if schedule == [] then s
    else Step(Exec(s, schedule[..|schedule| - 1]), schedule[|schedule| - 1])
  }

  lemma ExecSnoc(s: Auth, schedule: seq<Action>, a: Action)
    ensures Exec(s, schedule + [a]) == Step(Exec(s, schedule), a)
  {
    assert (schedule + [a])[..|schedule|] == schedule;
  }

  lemma ExecLast(s: Auth, first: seq<Action>, rest: seq<Action>)
    requires rest != []
    ensures Exec(s, first + rest) == Step(Exec(s, first + rest[..|rest| - 1]), rest[|rest| - 1])
  {
    var n := |rest| - 1;
    assert first + rest == first + rest[..n] + [rest[n]];
    ExecSnoc(s, first + rest[..n], rest[n]);
  }

  // ---------- where a run starts ----------

  /** Each session row comes from one issued payload. */
  ghost predicate SessionBound(issued: map<nat, Payload>, id: nat, row: Session) {
    && id in issued && row.id == id
    && row.username == issued[id].username
    && row.refreshToken == Token(issued[id])
    && row.expiresAt == issued[id].expiredAt
  }

  ghost predicate Bound(d: Store) {
    && (forall id :: id in d.issued ==> id < d.nextId && d.issued[id].id == id)
    && (forall id :: id in d.sessions ==> SessionBound(d.issued, id, d.sessions[id]))
  }

  ghost predicate Initial(s: Auth) {
    Bound(s.store) && forall i :: 0 <= i < |s.calls| ==> s.calls[i].phase == Start
  }
}
