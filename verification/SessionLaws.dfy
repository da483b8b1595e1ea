/** What holds of sessions over every interleaved run. */
module SessionLaws {
  import opened Sessions

  // ---------- binding ----------

  predicate KnowsPassword(d: Store, req: Request) {
    req.Login? && req.username in d.passwords && d.passwords[req.username] == req.password
  }

  predicate IssuedTo(d: Store, p: Payload, username: string) {
    p.id in d.issued && d.issued[p.id] == p && p.username == username
  }

  /** What a call has in hand. */
  ghost predicate CallOk(d: Store, c: Call) {
    match c.phase
    case Start => true
    case Minted(access, refresh) =>
      && KnowsPassword(d, c.req)
      && IssuedTo(d, access, c.req.username) && IssuedTo(d, refresh, c.req.username)
      && refresh.id !in d.sessions
    case Read(session) =>
      && (c.req.Renew? || c.req.Logout?)
      && session.id in d.sessions
      && SessionBound(d.issued, session.id, session)
      && session.id == c.req.token.payload.id
      && d.issued[session.id] == c.req.token.payload
      && (c.req.Logout? ==> session.username == c.req.user)
    case Finished(r) =>
      && r != Unauthorized(IncorrectUser) && r != Unauthorized(MismatchedToken)
      && (r.LoggedOut? ==> r.sessionId in d.sessions && d.sessions[r.sessionId].isBlocked)
      && (r.LoggedIn? ==>
            && KnowsPassword(d, c.req) && IssuedTo(d, r.accessToken.payload, c.req.username)
            && r.session.id in d.sessions && SessionBound(d.issued, r.session.id, r.session)
            && r.session.username == c.req.username)
      && (r.Renewed? ==>
            && c.req.Renew? && IssuedTo(d, r.accessToken.payload, c.req.token.payload.username)
            && IssuedTo(d, c.req.token.payload, c.req.token.payload.username)
            && c.req.token.payload.id in d.sessions)
  }

  /** No two logins are about to create the same row. */
  ghost predicate OwnMint(c: Call, e: Call) {
    c.phase.Minted? && e.phase.Minted? ==> c.phase.refresh.id != e.phase.refresh.id
  }

  ghost predicate Inv(s: Auth) {
    && Bound(s.store)
    && (forall i :: 0 <= i < |s.calls| ==> CallOk(s.store, s.calls[i]))
    && (forall i, j :: 0 <= i < |s.calls| && 0 <= j < |s.calls| && i != j ==> OwnMint(s.calls[i], s.calls[j]))
  }

  /** From d to d': payloads, and rows with their columns, stay; a block is never taken back. */
  ghost predicate Grows(d: Store, d': Store) {
    && d.passwords == d'.passwords && d.nextId <= d'.nextId
    && d.accessDuration == d'.accessDuration && d.refreshDuration == d'.refreshDuration
    && (forall id :: id in d.issued ==> id in d'.issued && d'.issued[id] == d.issued[id])
    && (forall id :: id in d.sessions ==>
          && id in d'.sessions
          && (d'.sessions[id] == d.sessions[id] || d'.sessions[id] == d.sessions[id].(isBlocked := true)))
  }

  /** What one step does for the call that takes it. */
  ghost predicate Keeps(d: Store, d': Store, c: Call) {
    Bound(d') && Grows(d, d') && CallOk(d', c)
  }

  lemma LoginKeeps(d: Store, c: Call, now: int)
    requires Bound(d) && CallOk(d, c) && c.req.Login? && c.phase == Start
    ensures var (d', phase) := LoginTokens(d, c.req.username, c.req.password, now);
      Keeps(d, d', c.(phase := phase))
  {}

  lemma CreateKeeps(d: Store, c: Call)
    requires Bound(d) && CallOk(d, c) && c.phase.Minted?
    ensures var (d', phase) := LoginSession(d, c.phase.access, c.phase.refresh);
      Keeps(d, d', c.(phase := phase))
  {}

  lemma RenewKeeps(d: Store, c: Call, now: int)
    requires Bound(d) && CallOk(d, c) && c.req.Renew? && c.phase.Read?
    ensures var (d', phase) := RenewMint(d, c.req.token, c.phase.session, now);
      Keeps(d, d', c.(phase := phase))
  {}

  lemma BlockKeeps(d: Store, c: Call)
    requires Bound(d) && CallOk(d, c) && c.req.Logout? && c.phase.Read?
    ensures var (d', phase) := BlockOne(d, c.phase.session.id);
      Keeps(d, d', c.(phase := phase))
  {}

  lemma BlockAllKeeps(d: Store, c: Call)
    requires Bound(d) && c.req.LogoutAll?
    ensures var (d', phase) := LogoutEverywhere(d, c.req.user);
      Keeps(d, d', c.(phase := phase))
  {}

  lemma ReadKeeps(d: Store, c: Call, now: int)
    requires Bound(d) && c.phase == Start && (c.req.Renew? || c.req.Logout?)
    ensures CallOk(d, c.(phase := Handle(d, c, now).1))
  {}

  lemma {:induction false} HandleKeeps(d: Store, c: Call, now: int)
    requires Bound(d) && CallOk(d, c)
    ensures Keeps(d, Handle(d, c, now).0, c.(phase := Handle(d, c, now).1))
  {
    match (c.req, c.phase)
    case (_, Finished(_)) => assert c.(phase := c.phase) == c;
    case (Login(_, _), Minted(_, _)) => CreateKeeps(d, c);
    case (Login(_, _), _) => LoginKeeps(d, c, now);
    case (Renew(_), Read(_)) => RenewKeeps(d, c, now);
    case (Logout(_, _), Read(_)) => BlockKeeps(d, c);
    case (LogoutAll(_), _) => BlockAllKeeps(d, c);
    case (_, _) => ReadKeeps(d, c, now);
  }

  /** Only the login that minted a payload creates its row. */
  lemma NewRows(d: Store, c: Call, now: int, id: nat)
    requires Bound(d) && CallOk(d, c) && id in Handle(d, c, now).0.sessions && id !in d.sessions
    ensures c.phase.Minted? && c.phase.refresh.id == id
  {}

  /** A call that mints does so with an id that no other call has. */
  lemma NewMint(d: Store, c: Call, now: int, e: Call)
    requires Bound(d) && CallOk(d, c) && CallOk(d, e) && OwnMint(c, e)
    ensures OwnMint(c.(phase := Handle(d, c, now).1), e)
  {}

  lemma CallFrame(d: Store, d': Store, c: Call)
    requires CallOk(d, c) && Grows(d, d')
    requires c.phase.Minted? ==> c.phase.refresh.id !in d'.sessions
    ensures CallOk(d', c)
  {}

  /** A step concerns one call. */
  lemma StepCalls(s: Auth, a: Action)
    ensures |Step(s, a).calls| == |s.calls|
    ensures forall j :: 0 <= j < |s.calls| && j != a.i ==> Step(s, a).calls[j] == s.calls[j]
    ensures forall j :: 0 <= j < |s.calls| ==> Step(s, a).calls[j].req == s.calls[j].req
  {}

  /** The store after a step is the one it found, or the one its handler leaves. */
  lemma StepStore(s: Auth, a: Action) returns (now: int)
    requires a.i < |s.calls|
    ensures Step(s, a).store == s.store || Step(s, a).store == Handle(s.store, s.calls[a.i], now).0
    ensures var c := s.calls[a.i];
      || Step(s, a).calls[a.i] == c || Step(s, a).calls[a.i] == c.(phase := Finished(InternalError))
      || Step(s, a).calls[a.i] == c.(phase := Handle(s.store, c, now).1)
  {
    now := if a.Advance? then a.now else 0;
  }

  lemma {:induction false} StepKeeps(s: Auth, a: Action)
    requires Bound(s.store) && a.i < |s.calls| && CallOk(s.store, s.calls[a.i])
    ensures Keeps(s.store, Step(s, a).store, Step(s, a).calls[a.i])
  {
    HandleKeeps(s.store, s.calls[a.i], if a.Advance? then a.now else 0);
  }

  lemma {:induction false} StepGrows(s: Auth, a: Action)
    requires Inv(s)
    ensures Grows(s.store, Step(s, a).store)
  {
    if a.i < |s.calls| {
      StepKeeps(s, a);
    }
  }

  lemma {:induction false} OtherCall(s: Auth, a: Action, j: nat)
    requires Inv(s) && a.i < |s.calls| && j < |s.calls| && j != a.i
    ensures CallOk(Step(s, a).store, s.calls[j])
    ensures OwnMint(Step(s, a).calls[a.i], s.calls[j])
  {
    var c, e := s.calls[a.i], s.calls[j];
    assert OwnMint(c, e) && CallOk(s.store, c) && CallOk(s.store, e);
    StepKeeps(s, a);
    var now := StepStore(s, a);
    NewMint(s.store, c, now, e);
    if e.phase.Minted? && e.phase.refresh.id in Step(s, a).store.sessions {
      NewRows(s.store, c, now, e.phase.refresh.id);
    }
    CallFrame(s.store, Step(s, a).store, e);
  }

  lemma {:induction false} StepInv(s: Auth, a: Action)
    requires Inv(s)
    ensures Inv(Step(s, a))
  {
    if a.i < |s.calls| {
      var s' := Step(s, a);
      StepKeeps(s, a);
      StepCalls(s, a);
      forall j | 0 <= j < |s.calls| && j != a.i
        ensures CallOk(s'.store, s'.calls[j]) && OwnMint(s'.calls[a.i], s'.calls[j]) && OwnMint(s'.calls[j], s'.calls[a.i])
      {
        OtherCall(s, a, j);
      }
    }
  }

  lemma {:induction false} ExecInv(s: Auth, schedule: seq<Action>)
    requires Initial(s)
    ensures Inv(Exec(s, schedule))
    ensures |Exec(s, schedule).calls| == |s.calls|
    ensures forall j :: 0 <= j < |s.calls| ==> Exec(s, schedule).calls[j].req == s.calls[j].req
  {
    if schedule != [] {
      var before, a := schedule[..|schedule| - 1], schedule[|schedule| - 1];
      ExecInv(s, before);
      StepInv(Exec(s, before), a);
      StepCalls(Exec(s, before), a);
    }
  }

  /** Session binding: in every reachable state each row's id, username, token and expiry come
      from one issued payload, and no renewal has ever been refused as an incorrect session
      user or a mismatched session token. */
  lemma SessionsAreBound(s: Auth, schedule: seq<Action>)
    requires Initial(s)
    ensures var m := Exec(s, schedule);
      && (forall id :: id in m.store.sessions ==> SessionBound(m.store.issued, id, m.store.sessions[id]))
      && (forall i :: 0 <= i < |m.calls| && m.calls[i].phase.Finished? ==>
            m.calls[i].phase.response != Unauthorized(IncorrectUser) && m.calls[i].phase.response != Unauthorized(MismatchedToken))
  {
    ExecInv(s, schedule);
    var m := Exec(s, schedule);
    forall i | 0 <= i < |m.calls| && m.calls[i].phase.Finished?
      ensures m.calls[i].phase.response != Unauthorized(IncorrectUser) && m.calls[i].phase.response != Unauthorized(MismatchedToken)
    {
      assert CallOk(m.store, m.calls[i]);
    }
  }

  /** Tokens go to whom they belong: a login is answered with tokens only for the right password
      and in its own user's name, and a renewal only for a genuine token that has a session, in
      the name of that token's user. */
  lemma TokensGoToTheirUser(s: Auth, schedule: seq<Action>, i: nat)
    requires Initial(s) && i < |s.calls| && i < |Exec(s, schedule).calls|
    requires Exec(s, schedule).calls[i].phase.Finished?
    ensures var d, req, r := Exec(s, schedule).store, s.calls[i].req, Exec(s, schedule).calls[i].phase.response;
      && (r.LoggedIn? ==>
            && KnowsPassword(d, req) && IssuedTo(d, r.accessToken.payload, req.username)
            && IssuedTo(d, r.session.refreshToken.payload, req.username) && r.session.id in d.sessions)
      && (r.Renewed? ==>
            && req.Renew? && IssuedTo(d, req.token.payload, req.token.payload.username)
            && IssuedTo(d, r.accessToken.payload, req.token.payload.username) && req.token.payload.id in d.sessions)
  {
    ExecInv(s, schedule);
    assert CallOk(Exec(s, schedule).store, Exec(s, schedule).calls[i]);
  }

  // ---------- revocation ----------

  lemma {:induction false} RunGrows(s: Auth, first: seq<Action>, rest: seq<Action>)
    requires Initial(s)
    ensures Grows(Exec(s, first).store, Exec(s, first + rest).store)
  {
    if rest == [] {
      assert first + rest == first;
    } else {
      var n := |rest| - 1;
      RunGrows(s, first, rest[..n]);
      ExecInv(s, first + rest[..n]);
      StepGrows(Exec(s, first + rest[..n]), rest[n]);
      ExecLast(s, first, rest);
    }
  }

  /** The renewal has not read its session, or has read a blocked one, or was refused. */
  ghost predicate Doomed(c: Call) {
    && c.req.Renew?
    && (c.phase.Read? ==> c.phase.session.isBlocked)
    && !(c.phase.Finished? && c.phase.response.Renewed?)
  }

  lemma DoomedStep(s: Auth, a: Action, i: nat)
    requires Inv(s) && i < |s.calls| && Doomed(s.calls[i])
    requires var id := s.calls[i].req.token.payload.id; id in s.store.sessions ==> s.store.sessions[id].isBlocked
    ensures |Step(s, a).calls| == |s.calls| && Doomed(Step(s, a).calls[i])
  {
    StepCalls(s, a);
    assert CallOk(s.store, s.calls[i]);
  }

  /** Revocation is permanent: once a session is blocked, no renewal that reads it later ever
      mints a token from it. */
  lemma {:induction false} RevocationIsPermanent(s: Auth, first: seq<Action>, rest: seq<Action>, i: nat)
    requires Initial(s) && i < |s.calls| && s.calls[i].req.Renew?
    requires i < |Exec(s, first).calls| && Exec(s, first).calls[i].phase == Start
    requires var id := s.calls[i].req.token.payload.id;
      id in Exec(s, first).store.sessions && Exec(s, first).store.sessions[id].isBlocked
    ensures i < |Exec(s, first + rest).calls| && Doomed(Exec(s, first + rest).calls[i])
  {
    ExecInv(s, first);
    if rest == [] {
      assert first + rest == first;
    } else {
      var n := |rest| - 1;
      RevocationIsPermanent(s, first, rest[..n], i);
      ExecInv(s, first + rest[..n]);
      RunGrows(s, first, rest[..n]);
      DoomedStep(Exec(s, first + rest[..n]), rest[n], i);
      ExecLast(s, first, rest);
    }
  }

  /** A logout that answered leaves its session blocked, for good. */
  lemma LogoutBlocks(s: Auth, first: seq<Action>, rest: seq<Action>, l: nat)
    requires Initial(s) && l < |Exec(s, first).calls|
    requires Exec(s, first).calls[l].phase.Finished? && Exec(s, first).calls[l].phase.response.LoggedOut?
    ensures var id := Exec(s, first).calls[l].phase.response.sessionId;
      id in Exec(s, first + rest).store.sessions && Exec(s, first + rest).store.sessions[id].isBlocked
  {
    ExecInv(s, first);
    assert CallOk(Exec(s, first).store, Exec(s, first).calls[l]);
    RunGrows(s, first, rest);
  }

  /** Signing out ends renewal: once a logout has answered, no renewal that comes in later mints
      a token from its session. */
  lemma LogoutEndsRenewal(s: Auth, first: seq<Action>, rest: seq<Action>, l: nat, i: nat)
    requires Initial(s) && l < |Exec(s, first).calls| && i < |s.calls| && i < |Exec(s, first).calls|
    requires Exec(s, first).calls[l].phase.Finished? && Exec(s, first).calls[l].phase.response.LoggedOut?
    requires s.calls[i].req.Renew? && Exec(s, first).calls[i].phase == Start
    requires s.calls[i].req.token.payload.id == Exec(s, first).calls[l].phase.response.sessionId
    ensures i < |Exec(s, first + rest).calls| && Doomed(Exec(s, first + rest).calls[i])
  {
    LogoutBlocks(s, first, [], l);
    assert first + [] == first;
    RevocationIsPermanent(s, first, rest, i);
  }

  /** Signing out twice is not a failure: once a session is blocked, a logout of its user that
      reads it, with a token that still verifies, answers 200, even if the reply of the logout
      that blocked it was lost. */
  lemma {:induction false} LogoutAgainSucceeds(s: Auth, schedule: seq<Action>, l: nat, now: int)
    requires Initial(s) && l < |Exec(s, schedule).calls|
    requires Exec(s, schedule).calls[l].req.Logout? && Exec(s, schedule).calls[l].phase == Start
    requires var m := Exec(s, schedule);
      var req := m.calls[l].req;
      && Verifies(m.store, req.token, now) && req.token.payload.id in m.store.sessions
      && m.store.sessions[req.token.payload.id].username == req.user
      && m.store.sessions[req.token.payload.id].isBlocked
    ensures var m, m' := Exec(s, schedule), Exec(s, schedule + [Advance(l, now)]);
      && l < |m'.calls| && m'.calls[l].phase == Finished(LoggedOut(m.calls[l].req.token.payload.id))
      && m'.store == m.store
  {
    ExecInv(s, schedule);
    ExecSnoc(s, schedule, Advance(l, now));
  }

  /** A logout_all leaves every session its user then has blocked, for good, whether or not its
      reply arrives, and its statement touches no other user's session. */
  lemma {:induction false} LogoutAllBlocks(s: Auth, first: seq<Action>, l: nat, a: Action, rest: seq<Action>, id: nat)
    requires Initial(s) && l < |Exec(s, first).calls| && a.i == l && !a.Fail?
    requires Exec(s, first).calls[l].req.LogoutAll? && Exec(s, first).calls[l].phase == Start
    requires id in Exec(s, first).store.sessions
    ensures var m, m' := Exec(s, first), Exec(s, first + [a]);
      && id in m'.store.sessions
      && (m.store.sessions[id].username != m.calls[l].req.user ==> m'.store.sessions[id] == m.store.sessions[id])
      && (m.store.sessions[id].username == m.calls[l].req.user ==>
            && id in Exec(s, first + [a] + rest).store.sessions
            && Exec(s, first + [a] + rest).store.sessions[id].isBlocked)
  {
    ExecSnoc(s, first, a);
    ExecInv(s, first);
    RunGrows(s, first + [a], rest);
  }

  /** A step changes a session only by blocking it, and only on behalf of the user it belongs to. */
  lemma {:induction false} OnlyTheOwnerRevokes(s: Auth, schedule: seq<Action>, a: Action, id: nat)
    requires Initial(s) && id in Exec(s, schedule).store.sessions
    requires id in Exec(s, schedule + [a]).store.sessions ==>
      Exec(s, schedule + [a]).store.sessions[id] != Exec(s, schedule).store.sessions[id]
    ensures var m := Exec(s, schedule);
      && id in Exec(s, schedule + [a]).store.sessions
      && Exec(s, schedule + [a]).store.sessions[id] == m.store.sessions[id].(isBlocked := true)
      && a.i < |m.calls| && (m.calls[a.i].req.Logout? || m.calls[a.i].req.LogoutAll?)
      && m.calls[a.i].req.user == m.store.sessions[id].username
  {
    ExecSnoc(s, schedule, a);
    ExecInv(s, schedule);
    var m := Exec(s, schedule);
    StepGrows(m, a);
    if a.i < |m.calls| {
      assert CallOk(m.store, m.calls[a.i]);
    }
  }

  /** What a renewal is answered is decided by the row it read and the clock alone: it mints a
      token exactly when that row was not blocked and has not expired since. A logout that
      comes between the read and the answer is not seen. */
  lemma RenewalGoesByItsRead(s: Auth, schedule: seq<Action>, i: nat, now: int)
    requires Initial(s) && i < |Exec(s, schedule).calls|
    requires Exec(s, schedule).calls[i].req.Renew? && Exec(s, schedule).calls[i].phase.Read?
    ensures var row := Exec(s, schedule).calls[i].phase.session;
      var c := Exec(s, schedule + [Advance(i, now)]).calls;
      && i < |c| && c[i].phase.Finished?
      && (c[i].phase.response.Renewed? <==> !row.isBlocked && now <= row.expiresAt)
      && (c[i].phase.response.Renewed? || c[i].phase.response == Unauthorized(if row.isBlocked then Blocked else Expired))
  {
    ExecSnoc(s, schedule, Advance(i, now));
    ExecInv(s, schedule);
    assert CallOk(Exec(s, schedule).store, Exec(s, schedule).calls[i]);
  }

  const PAYLOAD := Payload(0, "ann", 100)
  const SESSION := Session(0, "ann", Token(PAYLOAD), false, 100)

  /** One user with one open session. */
  function OneSession(calls: seq<Call>): Auth {
    Auth(Store(map["ann" := "secret"], 10, 50, map[0 := PAYLOAD], 1, map[0 := SESSION]), calls)
  }

  const RENEWAL := Call(Renew(Token(PAYLOAD)), Start)
  const LOGOUT := Call(Logout("ann", Token(PAYLOAD)), Start)
  const SIGNED_OUT: seq<Action> := [Advance(0, 1), Advance(1, 2), Advance(1, 3)]

  /** "After a logout no renewal mints a token" is false: this renewal reads the session, the
      logout then reads and blocks it and answers 200, and the renewal answers with a token. */
  lemma {:induction false} LateRenewalMints()
    ensures Initial(OneSession([RENEWAL, LOGOUT]))
    ensures var m := Exec(OneSession([RENEWAL, LOGOUT]), SIGNED_OUT);
      && m.store.sessions == map[0 := SESSION.(isBlocked := true)]
      && m.calls == [RENEWAL.(phase := Read(SESSION)), LOGOUT.(phase := Finished(LoggedOut(0)))]
    ensures var m := Exec(OneSession([RENEWAL, LOGOUT]), SIGNED_OUT + [Advance(0, 4)]);
      m.calls == [RENEWAL.(phase := Finished(Renewed(Token(Payload(1, "ann", 14))))), LOGOUT.(phase := Finished(LoggedOut(0)))]
  {
    var s, x := OneSession([RENEWAL, LOGOUT]), SIGNED_OUT;
    assert x[..0] == [] && x[..1] == x[..0] + [x[0]] && x[..2] == x[..1] + [x[1]] && x == x[..2] + [x[2]];
    ExecSnoc(s, x[..0], x[0]);
    assert Exec(s, x[..1]) == OneSession([RENEWAL.(phase := Read(SESSION)), LOGOUT]);
    ExecSnoc(s, x[..1], x[1]);
    assert Exec(s, x[..2]) == OneSession([RENEWAL.(phase := Read(SESSION)), LOGOUT.(phase := Read(SESSION))]);
    ExecSnoc(s, x[..2], x[2]);
    ExecSnoc(s, x, Advance(0, 4));
  }

  // ---------- accounting ----------

  function SessionsOf(sessions: map<nat, Session>, user: string): set<nat> {
    set id | id in sessions && sessions[id].username == user
  }

  function BlockedOf(sessions: map<nat, Session>, user: string): set<nat> {
    set id | id in sessions && sessions[id].username == user && sessions[id].isBlocked
  }

  /** The count a step returns to this user from a logout_all. */
  function Counted(s: Auth, a: Action, user: string): nat {
    if a.Advance? && a.i < |s.calls| && s.calls[a.i].req == LogoutAll(user) && !s.calls[a.i].phase.Finished?
    then
      var r := Step(s, a).calls[a.i].phase;
      if r.Finished? && r.response.SessionsRevoked? then r.response.count else 0
    else 0
  }

  /** 1 if a step is a single-session block that changed a row of this user. */
  function Flipped(s: Auth, a: Action, user: string): nat {
    if !a.Fail? && a.i < |s.calls| && s.calls[a.i].req.Logout? && s.calls[a.i].phase.Read? &&
       s.calls[a.i].phase.session.id in OpenSessions(s.store.sessions, user)
    then 1 else 0
  }

  /** The rows that a logout_all of this user blocked without anybody being told. */
  function Unreported(s: Auth, a: Action, user: string): nat {
    if a.LoseReply? && a.i < |s.calls| && s.calls[a.i] == Call(LogoutAll(user), Start)
    then |OpenSessions(s.store.sessions, user)| else 0
  }

  function TotalCounted(s: Auth, schedule: seq<Action>, user: string): nat {
    if schedule == [] then 0 else
    var before := schedule[..|schedule| - 1];
    TotalCounted(s, before, user) + Counted(Exec(s, before), schedule[|schedule| - 1], user)
  }

  function TotalFlipped(s: Auth, schedule: seq<Action>, user: string): nat {
    if schedule == [] then 0 else
    var before := schedule[..|schedule| - 1];
    TotalFlipped(s, before, user) + Flipped(Exec(s, before), schedule[|schedule| - 1], user)
  }

  function TotalUnreported(s: Auth, schedule: seq<Action>, user: string): nat {
    if schedule == [] then 0 else
    var before := schedule[..|schedule| - 1];
    TotalUnreported(s, before, user) + Unreported(Exec(s, before), schedule[|schedule| - 1], user)
  }

  /** No reply to a logout_all of this user was lost while the user had open sessions. */
  ghost predicate AllReported(s: Auth, schedule: seq<Action>, user: string) {
    schedule != [] ==>
      var before, a := schedule[..|schedule| - 1], schedule[|schedule| - 1];
      var m := Exec(s, before);
      && AllReported(s, before, user)
      && (a.LoseReply? && a.i < |m.calls| && m.calls[a.i] == Call(LogoutAll(user), Start) ==>
            OpenSessions(m.store.sessions, user) == {})
  }

  lemma BlockAllAccounts(sessions: map<nat, Session>, user: string, other: string)
    ensures |BlockedOf(BlockAll(sessions, user), other)| ==
      |BlockedOf(sessions, other)| + if user == other then |OpenSessions(sessions, user)| else 0
  {
    if user == other {
      assert BlockedOf(BlockAll(sessions, user), user) == BlockedOf(sessions, user) + OpenSessions(sessions, user);
    } else {
      assert BlockedOf(BlockAll(sessions, user), other) == BlockedOf(sessions, other);
    }
  }

  lemma BlockOneAccounts(sessions: map<nat, Session>, id: nat, user: string)
    requires id in sessions
    ensures |BlockedOf(sessions[id := sessions[id].(isBlocked := true)], user)| ==
      |BlockedOf(sessions, user)| + if id in OpenSessions(sessions, user) then 1 else 0
  {
    var after := sessions[id := sessions[id].(isBlocked := true)];
    if id in OpenSessions(sessions, user) {
      assert BlockedOf(after, user) == BlockedOf(sessions, user) + {id};
    } else {
      assert BlockedOf(after, user) == BlockedOf(sessions, user);
    }
  }

  lemma NewSessionAccounts(sessions: map<nat, Session>, id: nat, row: Session, user: string)
    requires id !in sessions && !row.isBlocked
    ensures BlockedOf(sessions[id := row], user) == BlockedOf(sessions, user)
  {}

  lemma {:induction false} StatementAccounts(d: Store, c: Call, now: int, user: string)
    requires Bound(d) && CallOk(d, c)
    ensures |BlockedOf(Handle(d, c, now).0.sessions, user)| ==
      |BlockedOf(d.sessions, user)|
      + (if c == Call(LogoutAll(user), Start) then |OpenSessions(d.sessions, user)| else 0)
      + (if c.req.Logout? && c.phase.Read? && c.phase.session.id in OpenSessions(d.sessions, user) then 1 else 0)
  {
    match (c.req, c.phase)
    case (LogoutAll(u), Start) => BlockAllAccounts(d.sessions, u, user);
    case (Logout(_, _), Read(session)) => BlockOneAccounts(d.sessions, session.id, user);
    case (Login(_, _), Minted(_, p)) =>
      NewSessionAccounts(d.sessions, p.id, Session(p.id, p.username, Token(p), false, p.expiredAt), user);
    case _ =>
  }

  lemma {:induction false} StepAccounts(s: Auth, a: Action, user: string)
    requires Inv(s)
    ensures |BlockedOf(Step(s, a).store.sessions, user)| ==
      |BlockedOf(s.store.sessions, user)| + Counted(s, a, user) + Flipped(s, a, user) + Unreported(s, a, user)
  {
    if a.i < |s.calls| {
      assert CallOk(s.store, s.calls[a.i]);
      StatementAccounts(s.store, s.calls[a.i], if a.Advance? then a.now else 0, user);
    }
  }

  lemma BlockedAreSessions(sessions: map<nat, Session>, user: string)
    ensures |BlockedOf(sessions, user)| <= |SessionsOf(sessions, user)|
  {
    var open := OpenSessions(sessions, user);
    assert SessionsOf(sessions, user) == BlockedOf(sessions, user) + open;
  }

  lemma {:induction false} UnreportedRows(s: Auth, schedule: seq<Action>, user: string)
    ensures TotalUnreported(s, schedule, user) == 0 <==> AllReported(s, schedule, user)
  {
    if schedule != [] {
      UnreportedRows(s, schedule[..|schedule| - 1], user);
    }
  }

  /** logout_all accounting: over any run, the sessions of a user that the run blocked are those
      counted in the answers to the user's logout_alls, those of the single-session blocks that
      changed a row, and those of the logout_alls whose reply was lost. So the counts never
      exceed the sessions the user has, and without the last part the sum is right exactly if
      no such reply was lost while the user had open sessions. */
  lemma {:induction false} RevocationsAddUp(s: Auth, schedule: seq<Action>, user: string)
    requires Initial(s)
    ensures |BlockedOf(Exec(s, schedule).store.sessions, user)| ==
      |BlockedOf(s.store.sessions, user)| + TotalCounted(s, schedule, user) + TotalFlipped(s, schedule, user)
      + TotalUnreported(s, schedule, user)
    ensures |BlockedOf(s.store.sessions, user)| + TotalCounted(s, schedule, user) <= |SessionsOf(Exec(s, schedule).store.sessions, user)|
    ensures |BlockedOf(Exec(s, schedule).store.sessions, user)| ==
      |BlockedOf(s.store.sessions, user)| + TotalCounted(s, schedule, user) + TotalFlipped(s, schedule, user)
      <==> AllReported(s, schedule, user)
  {
    if schedule != [] {
      var before, a := schedule[..|schedule| - 1], schedule[|schedule| - 1];
      RevocationsAddUp(s, before, user);
      ExecInv(s, before);
      StepAccounts(Exec(s, before), a, user);
    }
    BlockedAreSessions(Exec(s, schedule).store.sessions, user);
    UnreportedRows(s, schedule, user);
  }

  /** The counts can fall short: here one session has been blocked and none was ever counted. */
  lemma {:induction false} LostCount()
    ensures var s := OneSession([Call(LogoutAll("ann"), Start)]);
      var end := Exec(s, [LoseReply(0)]);
      && Initial(s) && end.calls[0].phase == Finished(InternalError)
      && BlockedOf(s.store.sessions, "ann") == {} && BlockedOf(end.store.sessions, "ann") == {0}
      && TotalCounted(s, [LoseReply(0)], "ann") == 0 && TotalFlipped(s, [LoseReply(0)], "ann") == 0
  {
    var s := OneSession([Call(LogoutAll("ann"), Start)]);
    ExecSnoc(s, [], LoseReply(0));
    assert [LoseReply(0)][..0] == [];
  }
}
