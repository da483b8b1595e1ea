/** What each session request is answered, as a client that is not interrupted sees it. */
module SessionAnswers {
  import opened Sessions
  import opened SessionLaws

  // ---------- calls that fail, and calls that do not ----------

  /** No store call of call i fails, and no reply to one is lost. */
  ghost predicate Untroubled(schedule: seq<Action>, i: nat) {
    forall x :: 0 <= x < |schedule| ==> schedule[x] != Fail(i) && schedule[x] != LoseReply(i)
  }

  /** A failed store call of an unanswered request is answered 500 and changes no table. */
  lemma {:induction false} FailedCallMeans500(s: Auth, schedule: seq<Action>, i: nat)
    requires i < |Exec(s, schedule).calls| && !Exec(s, schedule).calls[i].phase.Finished?
    ensures var m, m' := Exec(s, schedule), Exec(s, schedule + [Fail(i)]);
      && m'.store == m.store
      && m'.calls == m.calls[i := Call(m.calls[i].req, Finished(InternalError))]
  {
    ExecSnoc(s, schedule, Fail(i));
  }

  /** A statement whose reply is lost is answered 500 and has written what it would have written
      with its reply: the session row of a login, the block of a logout or of a logout_all. */
  lemma {:induction false} LostReplyMeans500(s: Auth, schedule: seq<Action>, i: nat, now: int)
    requires i < |Exec(s, schedule).calls|
    requires var c := Exec(s, schedule).calls[i];
      (c.req.Login? && c.phase.Minted?) || (c.req.Logout? && c.phase.Read?) || (c.req.LogoutAll? && c.phase == Start)
    ensures var m, m' := Exec(s, schedule), Exec(s, schedule + [LoseReply(i)]);
      && m'.store == Exec(s, schedule + [Advance(i, now)]).store
      && m'.calls == m.calls[i := Call(m.calls[i].req, Finished(InternalError))]
  {
    ExecSnoc(s, schedule, LoseReply(i));
    ExecSnoc(s, schedule, Advance(i, now));
  }

  function CallsLeft(phase: Phase): nat {
    match phase
    case Start => 2
    case Finished(_) => 0
    case _ => 1
  }

  /** The store calls that call i makes in a schedule. */
  function CallsMade(schedule: seq<Action>, i: nat): nat {
    if schedule == [] then 0 else
    var n := |schedule| - 1;
    CallsMade(schedule[..n], i) + if schedule[n].Advance? && schedule[n].i == i then 1 else 0
  }

  /** Two calls are enough for any of the four requests. */
  lemma {:induction false} TwoCallsAnswer(s: Auth, schedule: seq<Action>, i: nat)
    requires Initial(s) && i < |s.calls|
    ensures i < |Exec(s, schedule).calls|
    ensures Exec(s, schedule).calls[i].phase.Finished? || CallsMade(schedule, i) + CallsLeft(Exec(s, schedule).calls[i].phase) <= 2
    ensures CallsMade(schedule, i) >= 2 ==> Exec(s, schedule).calls[i].phase.Finished?
  {
    if schedule != [] {
      var before, a := schedule[..|schedule| - 1], schedule[|schedule| - 1];
      TwoCallsAnswer(s, before, i);
      ExecInv(s, before);
      assert CallOk(Exec(s, before).store, Exec(s, before).calls[i]);
      StepCalls(Exec(s, before), a);
    }
  }

  // ---------- the one or two calls of a request ----------

  /** At position n call i makes its first store call. */
  ghost predicate FirstCall(s: Auth, schedule: seq<Action>, i: nat, n: nat) {
    && n < |schedule| && schedule[n].Advance? && schedule[n].i == i
    && i < |s.calls| && i < |Exec(s, schedule[..n]).calls|
    && Exec(s, schedule[..n]).calls[i] == Call(s.calls[i].req, Start)
  }

  /** At position k it makes its second one, with this in hand. */
  ghost predicate SecondCall(s: Auth, schedule: seq<Action>, i: nat, k: nat, held: Phase) {
    && k < |schedule| && schedule[k].Advance? && schedule[k].i == i
    && i < |s.calls| && i < |Exec(s, schedule[..k]).calls|
    && Exec(s, schedule[..k]).calls[i] == Call(s.calls[i].req, held)
  }

  /** What the call at position n leads to. */
  function Outcome(s: Auth, schedule: seq<Action>, i: nat, n: nat): Phase
    requires n < |schedule| && schedule[n].Advance? && i < |Exec(s, schedule[..n]).calls|
  {
    Handle(Exec(s, schedule[..n]).store, Exec(s, schedule[..n]).calls[i], schedule[n].now).1
  }

  lemma SecondCallAnswers(d: Store, c: Call, now: int)
    requires CallOk(d, c) && c.phase != Start
    ensures Handle(d, c, now).1.Finished?
  {}

  lemma {:induction false} OwnStep(m: Auth, a: Action, i: nat)
    requires i < |m.calls| && a != Fail(i) && a != LoseReply(i)
    ensures i < |Step(m, a).calls|
    ensures Step(m, a).calls[i] ==
      if a.i == i then m.calls[i].(phase := Handle(m.store, m.calls[i], a.now).1) else m.calls[i]
  {}

  lemma {:induction false} SecondIsFinal(s: Auth, schedule: seq<Action>, i: nat, k: nat)
    requires Initial(s) && k < |schedule| && schedule[k].Advance? && i < |Exec(s, schedule[..k]).calls|
    requires !Exec(s, schedule[..k]).calls[i].phase.Start?
    ensures Outcome(s, schedule, i, k).Finished?
  {
    ExecInv(s, schedule[..k]);
    var m := Exec(s, schedule[..k]);
    assert CallOk(m.store, m.calls[i]);
    SecondCallAnswers(m.store, m.calls[i], schedule[k].now);
  }

  /** Call i has come to `end` by its first call, at n, or by a second one, at k, from there. */
  ghost predicate CameTo(s: Auth, schedule: seq<Action>, i: nat, n: nat, k: nat, end: Phase) {
    && FirstCall(s, schedule, i, n)
    && var first := Outcome(s, schedule, i, n);
       end == first || (!first.Finished? && n < k && SecondCall(s, schedule, i, k, first) && end == Outcome(s, schedule, i, k))
  }

  lemma CameToEarlier(s: Auth, schedule: seq<Action>, i: nat, n: nat, k: nat, end: Phase)
    requires schedule != [] && CameTo(s, schedule[..|schedule| - 1], i, n, k, end)
    ensures CameTo(s, schedule, i, n, k, end)
  {
    var before := schedule[..|schedule| - 1];
    assert before[..n] == schedule[..n];
    if k < |before| {
      assert before[..k] == schedule[..k];
    }
  }

  lemma {:induction false} OpenMeansFirst(s: Auth, schedule: seq<Action>, i: nat, n: nat, k: nat, end: Phase)
    requires Initial(s) && CameTo(s, schedule, i, n, k, end) && !end.Finished? && end != Start
    ensures end == Outcome(s, schedule, i, n)
  {
    if end != Outcome(s, schedule, i, n) {
      SecondIsFinal(s, schedule, i, k);
    }
  }

  /** An untroubled call that has begun came where it is by its first call or its second. */
  lemma {:induction false} Story(s: Auth, schedule: seq<Action>, i: nat) returns (n: nat, k: nat)
    requires Initial(s) && i < |s.calls| && Untroubled(schedule, i)
    requires i < |Exec(s, schedule).calls| && Exec(s, schedule).calls[i].phase != Start
    ensures CameTo(s, schedule, i, n, k, Exec(s, schedule).calls[i].phase)
  {
    var last := |schedule| - 1;
    var before, a := schedule[..last], schedule[last];
    ExecInv(s, before);
    var m := Exec(s, before);
    OwnStep(m, a, i);
    if m.calls[i].phase == Start {
      n, k := last, last;
    } else {
      n, k := Story(s, before, i);
      CameToEarlier(s, schedule, i, n, k, m.calls[i].phase);
      if a.i == i && !m.calls[i].phase.Finished? {
        OpenMeansFirst(s, schedule, i, n, k, m.calls[i].phase);
        k := last;
      }
    }
  }

  lemma StepAt(s: Auth, schedule: seq<Action>, n: nat)
    requires n < |schedule|
    ensures Exec(s, schedule[..n + 1]) == Step(Exec(s, schedule[..n]), schedule[n])
  {
    assert schedule[..n + 1] == schedule[..n] + [schedule[n]];
    ExecSnoc(s, schedule[..n], schedule[n]);
  }

  /** What is there at one position of a run is there at any later one. */
  lemma {:induction false} GrowsBetween(s: Auth, schedule: seq<Action>, n: nat, k: nat)
    requires Initial(s) && n <= k <= |schedule|
    ensures Grows(Exec(s, schedule[..n]).store, Exec(s, schedule[..k]).store)
  {
    RunGrows(s, schedule[..n], schedule[n..k]);
    assert schedule[..n] + schedule[n..k] == schedule[..k];
  }

  /** The state after the step at position n, and all that the steps after it keep of it. */
  lemma {:induction false} AfterCall(s: Auth, schedule: seq<Action>, n: nat)
    requires Initial(s) && n < |schedule|
    ensures Exec(s, schedule[..n + 1]) == Step(Exec(s, schedule[..n]), schedule[n])
    ensures Grows(s.store, Exec(s, schedule[..n]).store)
    ensures Grows(Exec(s, schedule[..n + 1]).store, Exec(s, schedule).store)
  {
    StepAt(s, schedule, n);
    GrowsBetween(s, schedule, 0, n);
    GrowsBetween(s, schedule, n + 1, |schedule|);
    assert schedule[..0] == [] && schedule[..|schedule|] == schedule;
  }

  // ---------- login ----------

  /** A user's two tokens, made at this time: the access token for the one duration, the refresh
      token for the other. */
  ghost predicate Tokens(d: Store, user: string, access: Payload, refresh: Payload, now: int) {
    && access.username == user && refresh.username == user && access.id != refresh.id
    && access.expiredAt == now + d.accessDuration
    && refresh.expiredAt == now + d.refreshDuration
    && access.id in d.issued && d.issued[access.id] == access
    && refresh.id in d.issued && d.issued[refresh.id] == refresh
  }

  /** The answer to a login whose tokens were made at this time: the session row as it was
      created, open and good for as long as the refresh token. The row has stayed, but for a block. */
  ghost predicate LoginAnswer(d: Store, user: string, r: Response, now: int) {
    && r.LoggedIn?
    && Tokens(d, user, r.accessToken.payload, r.session.refreshToken.payload, now)
    && r.session == Session(r.session.refreshToken.payload.id, user, r.session.refreshToken, false, now + d.refreshDuration)
    && r.session.id in d.sessions
    && (d.sessions[r.session.id] == r.session || d.sessions[r.session.id] == r.session.(isBlocked := true))
  }

  lemma LoginMints(d: Store, c: Call, now: int)
    requires Bound(d) && c.req.Login? && c.phase == Start
    ensures var (d', phase) := Handle(d, c, now);
      && (c.req.username !in d.passwords ==> phase == Finished(NotFound))
      && (c.req.username in d.passwords && d.passwords[c.req.username] != c.req.password ==>
            phase == Finished(Unauthorized(WrongPassword)))
      && (KnowsPassword(d, c.req) ==>
            && phase.Minted? && Tokens(d', c.req.username, phase.access, phase.refresh, now)
            && phase.access.id !in d.issued && phase.refresh.id !in d.issued)
  {}

  lemma LoginCreates(d: Store, c: Call, now: int, t: int)
    requires Bound(d) && CallOk(d, c) && c.req.Login? && c.phase.Minted?
    requires Tokens(d, c.req.username, c.phase.access, c.phase.refresh, t)
    ensures var (d', phase) := Handle(d, c, now);
      && phase.Finished? && LoginAnswer(d', c.req.username, phase.response, t)
      && phase.response.accessToken.payload == c.phase.access
      && phase.response.session.refreshToken.payload == c.phase.refresh
      && c.phase.refresh.id !in d.sessions && d'.sessions == d.sessions[c.phase.refresh.id := phase.response.session]
  {}

  lemma TokensStay(d: Store, d': Store, user: string, access: Payload, refresh: Payload, now: int)
    requires Tokens(d, user, access, refresh, now) && Grows(d, d')
    ensures Tokens(d', user, access, refresh, now)
  {}

  lemma LoginAnswerStays(d: Store, d': Store, user: string, r: Response, now: int)
    requires LoginAnswer(d, user, r, now) && Grows(d, d')
    ensures LoginAnswer(d', user, r, now)
  {}

  /** From the call that made the tokens to the answer. */
  lemma {:induction false} LoginFinishes(s: Auth, schedule: seq<Action>, i: nat, n: nat, k: nat)
    requires Initial(s) && FirstCall(s, schedule, i, n) && s.calls[i].req.Login? && n < k
    requires Outcome(s, schedule, i, n).Minted? && SecondCall(s, schedule, i, k, Outcome(s, schedule, i, n))
    requires var p := Outcome(s, schedule, i, n);
      Tokens(Exec(s, schedule[..n + 1]).store, s.calls[i].req.username, p.access, p.refresh, schedule[n].now)
    ensures var p, end := Outcome(s, schedule, i, n), Outcome(s, schedule, i, k);
      && end.Finished? && LoginAnswer(Exec(s, schedule).store, s.calls[i].req.username, end.response, schedule[n].now)
      && end.response.accessToken.payload == p.access && end.response.session.refreshToken.payload == p.refresh
  {
    var p, d, c := Outcome(s, schedule, i, n), Exec(s, schedule[..k]).store, Exec(s, schedule[..k]).calls[i];
    var user, now := s.calls[i].req.username, schedule[n].now;
    ExecInv(s, schedule[..k]);
    assert CallOk(d, c);
    GrowsBetween(s, schedule, n + 1, k);
    TokensStay(Exec(s, schedule[..n + 1]).store, d, user, p.access, p.refresh, now);
    LoginCreates(d, c, schedule[k].now, now);
    AfterCall(s, schedule, k);
    LoginAnswerStays(Exec(s, schedule[..k + 1]).store, Exec(s, schedule).store, user, Outcome(s, schedule, i, k).response, now);
  }

  /** What an untroubled login is answered is decided by the password alone. An unknown user is
      not found, a wrong password is unauthorized, and the right one is always answered with two
      new tokens, which expire an access duration and a refresh duration after the call that made
      them, and with an open session that ends with the refresh token. */
  lemma {:induction false} LoginIsAnswered(s: Auth, schedule: seq<Action>, i: nat) returns (n: nat)
    requires Initial(s) && i < |s.calls| && s.calls[i].req.Login? && Untroubled(schedule, i)
    requires i < |Exec(s, schedule).calls| && Exec(s, schedule).calls[i].phase.Finished?
    ensures FirstCall(s, schedule, i, n)
    ensures var req, r := s.calls[i].req, Exec(s, schedule).calls[i].phase.response;
      && (r == NotFound <==> req.username !in s.store.passwords)
      && (r == Unauthorized(WrongPassword) <==>
            req.username in s.store.passwords && s.store.passwords[req.username] != req.password)
      && (r.LoggedIn? <==> req.username in s.store.passwords && s.store.passwords[req.username] == req.password)
      && (r.LoggedIn? ==>
            && LoginAnswer(Exec(s, schedule).store, req.username, r, schedule[n].now)
            && r.accessToken.payload.id !in Exec(s, schedule[..n]).store.issued
            && r.session.id !in Exec(s, schedule[..n]).store.issued)
  {
    var k;
    n, k := Story(s, schedule, i);
    AfterCall(s, schedule, n);
    var m := Exec(s, schedule[..n]);
    assert Bound(m.store) by {
      ExecInv(s, schedule[..n]);
    }
    LoginMints(m.store, m.calls[i], schedule[n].now);
    if KnowsPassword(s.store, s.calls[i].req) {
      LoginFinishes(s, schedule, i, n, k);
    }
  }

  // ---------- tokens ----------

  /** The token was issued as it is. */
  predicate Genuine(d: Store, p: Payload) {
    p.id in d.issued && d.issued[p.id] == p
  }

  /** A token that was not issued, or that has expired, is good for nothing: a renewal or a logout
      that presents one is unauthorized, and no other is for that reason. The first call of either
      changes no table, whatever it answers. */
  lemma {:induction false} BadTokenIsRefused(s: Auth, schedule: seq<Action>, i: nat, now: int)
    requires Initial(s) && i < |Exec(s, schedule).calls| && Exec(s, schedule).calls[i].phase == Start
    requires Exec(s, schedule).calls[i].req.Renew? || Exec(s, schedule).calls[i].req.Logout?
    ensures var m, m' := Exec(s, schedule), Exec(s, schedule + [Advance(i, now)]);
      var p := m.calls[i].req.token.payload;
      && m'.store == m.store && i < |m'.calls|
      && (m'.calls[i].phase == Finished(Unauthorized(BadToken)) <==> !Genuine(m.store, p) || now > p.expiredAt)
  {
    ExecSnoc(s, schedule, Advance(i, now));
  }

  // ---------- renewal ----------

  lemma RenewalReads(d: Store, c: Call, now: int)
    requires c.req.Renew? && c.phase == Start
    ensures var p, phase := c.req.token.payload, Handle(d, c, now).1;
      && (phase == Finished(Unauthorized(BadToken)) <==> !Genuine(d, p) || now > p.expiredAt)
      && (phase == Finished(NotFound) <==> Genuine(d, p) && now <= p.expiredAt && p.id !in d.sessions)
      && (phase.Read? <==> Genuine(d, p) && now <= p.expiredAt && p.id in d.sessions)
      && (phase.Read? ==> phase.session == d.sessions[p.id])
      && (phase.Read? || phase.Finished?)
  {}

  lemma RenewalMints(d: Store, c: Call, now: int)
    requires Bound(d) && CallOk(d, c) && c.req.Renew? && c.phase.Read?
    ensures var row, (d', phase) := c.phase.session, Handle(d, c, now);
      && phase.Finished?
      && (phase.response == Unauthorized(Blocked) <==> row.isBlocked)
      && (phase.response == Unauthorized(Expired) <==> !row.isBlocked && now > row.expiresAt)
      && (phase.response.Renewed? <==> !row.isBlocked && now <= row.expiresAt)
      && (phase.response.Renewed? ==>
            var t := phase.response.accessToken.payload;
            && t.username == c.req.token.payload.username && t.expiredAt == now + d.accessDuration
            && t.id !in d.issued && Genuine(d', t))
  {}

  /** A session row goes by the refresh token it was made with. */
  lemma {:induction false} RowOfToken(s: Auth, schedule: seq<Action>, p: Payload)
    requires Initial(s) && Genuine(Exec(s, schedule).store, p) && p.id in Exec(s, schedule).store.sessions
    ensures Exec(s, schedule).store.sessions[p.id].username == p.username
    ensures Exec(s, schedule).store.sessions[p.id].expiresAt == p.expiredAt
  {
    ExecInv(s, schedule);
  }

  /** What an untroubled renewal is answered: BadToken and NotFound are decided at its first call,
      n, by the token, the clock and whether there is a session. Otherwise the session as n read it
      and the clock at the second call, k, decide: a blocked session, an expired one, or a new
      access token in the name of the token's user that expires an access duration after k. */
  lemma {:induction false} RenewalIsAnswered(s: Auth, schedule: seq<Action>, i: nat) returns (n: nat, k: nat)
    requires Initial(s) && i < |s.calls| && s.calls[i].req.Renew? && Untroubled(schedule, i)
    requires i < |Exec(s, schedule).calls| && Exec(s, schedule).calls[i].phase.Finished?
    ensures FirstCall(s, schedule, i, n)
    ensures var d, p, r := Exec(s, schedule[..n]).store, s.calls[i].req.token.payload, Exec(s, schedule).calls[i].phase.response;
      && (r == Unauthorized(BadToken) <==> !Genuine(d, p) || schedule[n].now > p.expiredAt)
      && (r == NotFound <==> Genuine(d, p) && schedule[n].now <= p.expiredAt && p.id !in d.sessions)
      && (Genuine(d, p) && schedule[n].now <= p.expiredAt && p.id in d.sessions ==>
            && n < k < |schedule| && schedule[k].Advance? && schedule[k].i == i
            && (r == Unauthorized(Blocked) <==> d.sessions[p.id].isBlocked)
            && (r == Unauthorized(Expired) <==> !d.sessions[p.id].isBlocked && schedule[k].now > p.expiredAt)
            && (r.Renewed? <==> !d.sessions[p.id].isBlocked && schedule[k].now <= p.expiredAt)
            && (r.Renewed? ==>
                  var t := r.accessToken.payload;
                  && t.username == p.username && t.expiredAt == schedule[k].now + s.store.accessDuration
                  && t.id !in Exec(s, schedule[..k]).store.issued && Genuine(Exec(s, schedule).store, t)))
  {
    n, k := Story(s, schedule, i);
    var m := Exec(s, schedule[..n]);
    RenewalReads(m.store, m.calls[i], schedule[n].now);
    if Outcome(s, schedule, i, n).Read? {
      RowOfToken(s, schedule[..n], s.calls[i].req.token.payload);
      ExecInv(s, schedule[..k]);
      var m' := Exec(s, schedule[..k]);
      assert CallOk(m'.store, m'.calls[i]);
      RenewalMints(m'.store, m'.calls[i], schedule[k].now);
      AfterCall(s, schedule, k);
    }
  }

  // ---------- logout ----------

  lemma LogoutReads(d: Store, c: Call, now: int)
    requires Bound(d) && c.req.Logout? && c.phase == Start
    ensures var p, phase := c.req.token.payload, Handle(d, c, now).1;
      var good := Genuine(d, p) && now <= p.expiredAt;
      && (phase == Finished(Unauthorized(BadToken)) <==> !good)
      && (phase == Finished(NotFound) <==> good && p.id !in d.sessions)
      && (phase == Finished(Unauthorized(NotYourSession)) <==> good && p.id in d.sessions && d.sessions[p.id].username != c.req.user)
      && (phase == Finished(LoggedOut(p.id)) <==>
            good && p.id in d.sessions && d.sessions[p.id].username == c.req.user && d.sessions[p.id].isBlocked)
      && (phase.Read? <==>
            good && p.id in d.sessions && d.sessions[p.id].username == c.req.user && !d.sessions[p.id].isBlocked)
  {}

  lemma LogoutWrites(d: Store, c: Call, now: int)
    requires CallOk(d, c) && c.req.Logout? && c.phase.Read?
    ensures Handle(d, c, now).1 == Finished(LoggedOut(c.req.token.payload.id))
  {}

  /** What an untroubled logout is answered is decided at its first call, n, by the token, the
      clock and the session: it answers 200 exactly for a genuine, unexpired token with a session
      of this user, and then the session is blocked. */
  lemma {:induction false} LogoutIsAnswered(s: Auth, schedule: seq<Action>, i: nat) returns (n: nat)
    requires Initial(s) && i < |s.calls| && s.calls[i].req.Logout? && Untroubled(schedule, i)
    requires i < |Exec(s, schedule).calls| && Exec(s, schedule).calls[i].phase.Finished?
    ensures FirstCall(s, schedule, i, n)
    ensures var d, p, r := Exec(s, schedule[..n]).store, s.calls[i].req.token.payload, Exec(s, schedule).calls[i].phase.response;
      var good := Genuine(d, p) && schedule[n].now <= p.expiredAt;
      && (r == Unauthorized(BadToken) <==> !good)
      && (r == NotFound <==> good && p.id !in d.sessions)
      && (r == Unauthorized(NotYourSession) <==> good && p.id in d.sessions && d.sessions[p.id].username != s.calls[i].req.user)
      && (r == LoggedOut(p.id) <==> good && p.id in d.sessions && d.sessions[p.id].username == s.calls[i].req.user)
      && (r == LoggedOut(p.id) ==>
            p.id in Exec(s, schedule).store.sessions && Exec(s, schedule).store.sessions[p.id].isBlocked)
  {
    var k;
    n, k := Story(s, schedule, i);
    var m := Exec(s, schedule[..n]);
    ExecInv(s, schedule[..n]);
    LogoutReads(m.store, m.calls[i], schedule[n].now);
    if Outcome(s, schedule, i, n).Read? {
      ExecInv(s, schedule[..k]);
      assert CallOk(Exec(s, schedule[..k]).store, Exec(s, schedule[..k]).calls[i]);
      LogoutWrites(Exec(s, schedule[..k]).store, Exec(s, schedule[..k]).calls[i], schedule[k].now);
    }
    ExecInv(s, schedule);
    assert CallOk(Exec(s, schedule).store, Exec(s, schedule).calls[i]);
  }

  /** The second call of a logout blocks the session of its token and changes nothing else. */
  lemma {:induction false} LogoutBlocksOneSession(s: Auth, schedule: seq<Action>, i: nat, now: int)
    requires Initial(s) && i < |Exec(s, schedule).calls|
    requires Exec(s, schedule).calls[i].req.Logout? && Exec(s, schedule).calls[i].phase.Read?
    ensures var m, m' := Exec(s, schedule), Exec(s, schedule + [Advance(i, now)]);
      var id := m.calls[i].req.token.payload.id;
      && id in m.store.sessions
      && m'.store == m.store.(sessions := m.store.sessions[id := m.store.sessions[id].(isBlocked := true)])
      && i < |m'.calls| && m'.calls[i].phase == Finished(LoggedOut(id))
  {
    ExecInv(s, schedule);
    assert CallOk(Exec(s, schedule).store, Exec(s, schedule).calls[i]);
    ExecSnoc(s, schedule, Advance(i, now));
  }

  // ---------- logout_all ----------

  function StillOpen(sessions: map<nat, Session>, user: string): set<nat> {
    set id | id in sessions && sessions[id].username == user && !sessions[id].isBlocked
  }

  /** An untroubled logout_all answers with the number of sessions of its user that were open at
      its one call. */
  lemma {:induction false} LogoutAllIsAnswered(s: Auth, schedule: seq<Action>, i: nat) returns (n: nat)
    requires Initial(s) && i < |s.calls| && s.calls[i].req.LogoutAll? && Untroubled(schedule, i)
    requires i < |Exec(s, schedule).calls| && Exec(s, schedule).calls[i].phase.Finished?
    ensures FirstCall(s, schedule, i, n)
    ensures var sessions := Exec(s, schedule[..n]).store.sessions;
      Exec(s, schedule).calls[i].phase.response ==
        SessionsRevoked(|StillOpen(sessions, s.calls[i].req.user)|)
  {
    var k;
    n, k := Story(s, schedule, i);
    var sessions, user := Exec(s, schedule[..n]).store.sessions, s.calls[i].req.user;
    assert StillOpen(sessions, user) == OpenSessions(sessions, user);
  }
}
