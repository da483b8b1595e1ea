/** The session handlers as the program has them: statements change the sessions table in
    place, and each handler runs from one store call to the next. */
module SessionServer {
  import opened Schema
  import opened Sessions
  import opened SessionLaws

  /** A renewal of a session that is blocked when the run begins. */
  ghost predicate OfBlocked(s: Auth, i: int) {
    && 0 <= i < |s.calls| && s.calls[i].req.Renew?
    && s.calls[i].req.token.payload.id in s.store.sessions
    && s.store.sessions[s.calls[i].req.token.payload.id].isBlocked
  }

  lemma {:induction false} RunKeepsRevocations(s: Auth, schedule: seq<Action>)
    requires Initial(s)
    ensures Bound(Exec(s, schedule).store) && Grows(s.store, Exec(s, schedule).store)
    ensures forall i :: OfBlocked(s, i) ==> i < |Exec(s, schedule).calls| && Doomed(Exec(s, schedule).calls[i])
  {
    assert [] + schedule == schedule;
    ExecInv(s, schedule);
    RunGrows(s, [], schedule);
    forall i | OfBlocked(s, i) ensures i < |Exec(s, schedule).calls| && Doomed(Exec(s, schedule).calls[i]) {
      RevocationIsPermanent(s, [], schedule, i);
    }
  }

  class Server {
    const passwords: map<string, string>
    const accessDuration: int
    const refreshDuration: int
    var issued: map<nat, Payload>
    var nextId: nat
    var sessions: map<nat, Session>
    var calls: seq<Call>

    function Store(): Store
      reads this
    {
      Sessions.Store.Store(passwords, accessDuration, refreshDuration, issued, nextId, sessions)
    }

    function State(): Auth
      reads this
    {
      Auth(Store(), calls)
    }

    constructor (s: Auth)
      ensures State() == s
    {
      passwords, accessDuration, refreshDuration := s.store.passwords, s.store.accessDuration, s.store.refreshDuration;
      issued, nextId, sessions := s.store.issued, s.store.nextId, s.store.sessions;
      calls := s.calls;
    }

    // ---------- the token maker and the sessions table ----------

    method CreateToken(username: string, duration: int, now: int) returns (p: Payload)
      modifies this`issued, this`nextId
      ensures p == Payload(old(nextId), username, now + duration)
      ensures Store() == Issue(old(Store()), p)
    {
      p := Payload(nextId, username, now + duration);
      issued := issued[p.id := p];
      nextId := nextId + 1;
    }

    /** INSERT INTO sessions. */
    method CreateSession(row: Session) returns (r: Reply<Session>)
      modifies this`sessions
      ensures r == if row.id in old(sessions) then Err(UniqueViolation) else Row(row)
      ensures sessions == if r.Err? then old(sessions) else old(sessions)[row.id := row]
    {
      if row.id in sessions {
        return Err(UniqueViolation);
      }
      sessions := sessions[row.id := row];
      return Row(row);
    }

    method GetSession(id: nat) returns (r: Reply<Session>)
      ensures r == if id in sessions then Row(sessions[id]) else Err(NoRows)
    {
      r := if id in sessions then Row(sessions[id]) else Err(NoRows);
    }

    /** UPDATE sessions SET is_blocked = true WHERE id = id. */
    method BlockSession(id: nat) returns (r: Reply<Session>)
      modifies this`sessions
      ensures r == if id in old(sessions) then Row(old(sessions)[id].(isBlocked := true)) else Err(NoRows)
      ensures sessions == if r.Err? then old(sessions) else old(sessions)[id := r.row]
    {
      if id !in sessions {
        return Err(NoRows);
      }
      var row := sessions[id].(isBlocked := true);
      sessions := sessions[id := row];
      return Row(row);
    }

    /** UPDATE sessions SET is_blocked = true WHERE username = user AND is_blocked = false: the
        number of rows it changed. */
    method BlockUserSessions(user: string) returns (rows: nat)
      modifies this`sessions
      ensures rows == |OpenSessions(old(sessions), user)|
      ensures sessions == BlockAll(old(sessions), user)
      ensures OpenSessions(sessions, user) == {}
    {
      rows := |OpenSessions(sessions, user)|;
      sessions := BlockAll(sessions, user);
    }

    // ---------- handlers ----------

    method Enter(i: nat, phase: Phase)
      requires i < |calls|
      modifies this`calls
      ensures calls == old(calls)[i := old(calls)[i].(phase := phase)]
    {
      calls := calls[i := calls[i].(phase := phase)];
    }

    method LoginUser(i: nat, now: int)
      requires i < |calls| && calls[i].req.Login?
      modifies this
      ensures State() == Step(old(State()), Advance(i, now))
      ensures var req := old(calls)[i].req;
        old(calls)[i].phase == Start && req.username in passwords && passwords[req.username] == req.password ==>
          calls[i].phase == Minted(
            Payload(old(nextId), req.username, now + accessDuration),
            Payload(old(nextId) + 1, req.username, now + refreshDuration))
      ensures var phase := old(calls)[i].phase;
        phase.Minted? && phase.refresh.id !in old(sessions) ==>
          var row := Session(phase.refresh.id, phase.refresh.username, Token(phase.refresh), false, phase.refresh.expiredAt);
          sessions == old(sessions)[row.id := row] && calls[i].phase == Finished(LoggedIn(row, Token(phase.access)))
    {
      var req := calls[i].req;
      match calls[i].phase
      case Minted(access, refresh) =>
        var r := CreateSession(Session(refresh.id, refresh.username, Token(refresh), false, refresh.expiredAt));
        if r.Err? {
          Enter(i, Finished(InternalError));
        } else {
          Enter(i, Finished(LoggedIn(r.row, Token(access))));
        }
      case Finished(_) => assert calls == calls[i := calls[i]];
      case _ =>
        if req.username !in passwords {
          Enter(i, Finished(NotFound));
        } else if req.password != passwords[req.username] {
          Enter(i, Finished(Unauthorized(WrongPassword)));
        } else {
          var access := CreateToken(req.username, accessDuration, now);
          var refresh := CreateToken(req.username, refreshDuration, now);
          Enter(i, Minted(access, refresh));
        }
    }

    method RenewAccessToken(i: nat, now: int)
      requires i < |calls| && calls[i].req.Renew?
      modifies this
      ensures State() == Step(old(State()), Advance(i, now))
      ensures old(calls)[i].phase == Start && now > old(calls)[i].req.token.payload.expiredAt ==>
        calls[i].phase == Finished(Unauthorized(BadToken))
      ensures sessions == old(sessions)
    {
      var token := calls[i].req.token;
      match calls[i].phase
      case Read(session) =>
        if session.isBlocked {
          Enter(i, Finished(Unauthorized(Blocked)));
        } else if session.username != token.payload.username {
          Enter(i, Finished(Unauthorized(IncorrectUser)));
        } else if session.refreshToken != token {
          Enter(i, Finished(Unauthorized(MismatchedToken)));
        } else if now > session.expiresAt {
          Enter(i, Finished(Unauthorized(Expired)));
        } else {
          var access := CreateToken(token.payload.username, accessDuration, now);
          Enter(i, Finished(Renewed(Token(access))));
        }
      case Finished(_) => assert calls == calls[i := calls[i]];
      case _ =>
        if !Verifies(Store(), token, now) {
          Enter(i, Finished(Unauthorized(BadToken)));
          return;
        }
        var r := GetSession(token.payload.id);
        if r.Err? {
          Enter(i, Finished(NotFound));
        } else {
          Enter(i, Read(r.row));
        }
    }

    method Logout(i: nat, now: int)
      requires i < |calls| && calls[i].req.Logout?
      modifies this
      ensures State() == Step(old(State()), Advance(i, now))
      ensures old(calls)[i].phase == Start ==> sessions == old(sessions)
      ensures old(calls)[i].phase == Start && now > old(calls)[i].req.token.payload.expiredAt ==>
        calls[i].phase == Finished(Unauthorized(BadToken))
    {
      var req := calls[i].req;
      match calls[i].phase
      case Read(session) =>
        var r := BlockSession(session.id);
        if r.Err? {
          Enter(i, Finished(InternalError));
        } else {
          Enter(i, Finished(LoggedOut(session.id)));
        }
      case Finished(_) => assert calls == calls[i := calls[i]];
      case _ =>
        if !Verifies(Store(), req.token, now) {
          Enter(i, Finished(Unauthorized(BadToken)));
          return;
        }
        var r := GetSession(req.token.payload.id);
        if r.Err? {
          Enter(i, Finished(NotFound));
        } else if r.row.username != req.user {
          Enter(i, Finished(Unauthorized(NotYourSession)));
        } else if r.row.isBlocked {
          Enter(i, Finished(LoggedOut(r.row.id)));
        } else {
          Enter(i, Read(r.row));
        }
    }

    method LogoutAll(i: nat, now: int)
      requires i < |calls| && calls[i].req.LogoutAll?
      modifies this
      ensures State() == Step(old(State()), Advance(i, now))
    {
      if calls[i].phase.Finished? {
        assert calls == calls[i := calls[i]];
      } else {
        var revoked := BlockUserSessions(calls[i].req.user);
        Enter(i, Finished(SessionsRevoked(revoked)));
      }
    }

    /** The statement that call i is about to run takes effect, and the handler is told that it
        failed. */
    method RunWithoutReply(i: nat)
      requires i < |calls|
      modifies this
      ensures State() == Step(old(State()), LoseReply(i))
    {
      match (calls[i].req, calls[i].phase)
      case (Login(_, _), Minted(_, refresh)) =>
        var _ := CreateSession(Session(refresh.id, refresh.username, Token(refresh), false, refresh.expiredAt));
        Enter(i, Finished(InternalError));
      case (Logout(_, _), Read(session)) =>
        var _ := BlockSession(session.id);
        Enter(i, Finished(InternalError));
      case (LogoutAll(user), Start) =>
        var _ := BlockUserSessions(user);
        Enter(i, Finished(InternalError));
      case _ =>
    }

    /** Any interleaving of any calls. Rows stay bound to issued payloads, no session is removed
        or unblocked, and no renewal of a session that was blocked gets a token. */
    method Run(schedule: seq<Action>)
      modifies this
      ensures State() == Exec(old(State()), schedule)
      ensures Initial(old(State())) ==>
        && Bound(Store()) && Grows(old(Store()), Store())
        && forall i :: OfBlocked(old(State()), i) ==> i < |calls| && Doomed(calls[i])
    {
      var n := 0;
      while n < |schedule|
        invariant 0 <= n <= |schedule|
        invariant State() == Exec(old(State()), schedule[..n])
      {
        var a := schedule[n];
        if a.i < |calls| {
          if a.Fail? {
            if !calls[a.i].phase.Finished? {
              Enter(a.i, Finished(InternalError));
            }
          } else if a.LoseReply? {
            RunWithoutReply(a.i);
          } else {
            match calls[a.i].req {
              case Login(_, _) => LoginUser(a.i, a.now);
              case Renew(_) => RenewAccessToken(a.i, a.now);
              case Logout(_, _) => Logout(a.i, a.now);
              case LogoutAll(_) => LogoutAll(a.i, a.now);
            }
          }
        }
        assert schedule[..n + 1][..n] == schedule[..n];
        n := n + 1;
      }
      assert schedule[..n] == schedule;
      if Initial(old(State())) {
        RunKeepsRevocations(old(State()), schedule);
      }
    }
  }
}
