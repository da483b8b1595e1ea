/** The idempotent handler over the store is an atomic memo table: each request acts as if it
    had been served on its own at one moment between its arrival and its answer. */
module MemoTable {
  import opened Schema
  import opened TransferStore
  import opened StoreInvariant
  import opened Ledger
  import opened Fingerprint
  import opened TransferApi
  import opened ApiInvariant
  import opened Refusals

  // ---------- the atomic memo table ----------

  type Memo = map<KeyId, KeyRow>

  /** What the world outside the table has in store for a request: an error answer, or a
      transfer whose result is body and whose commit the handler hears of or not. */
  datatype Effect = Refuse(response: Response) | Perform(body: Body, heard: bool)

  /** A request is served in one step. A spent key answers for itself; a fresh key is spent by
      a transfer and by nothing else. */
  function Serve(memo: Memo, req: Request, effect: Effect): (Memo, Response) {
    var k := KeyOf(req);
    match effect
    case Refuse(r) => (memo, r)
    case Perform(body, heard) =>
      if req.key != "" && k in memo then
        (memo, if memo[k].requestHash == FingerprintOf(req.body) then OK(memo[k].responseBody, true) else Conflict(DifferentTransfer))
      else
        (if req.key != "" then memo[k := KeyRow(FingerprintOf(req.body), body)] else memo,
         if heard then OK(body, false) else InternalError)
  }

  /** The answers a request can be refused with. */
  predicate Refusal(r: Response) {
    r.BadRequest? || r.Unauthorized? || r.NotFound? || r.InternalError?
  }

  datatype Op = Op(i: nat, effect: Effect)

  // ---------- the operation inside a run ----------

  function MemoOf(a: Api): Memo {
    a.db.committed.keys
  }

  /** What served a request that has just been answered. */
  function EffectOf(h: Handler, tx: Tx): Effect
    requires h.phase.Finished?
  {
    if Won(tx) then Perform(Json(tx.result), tx.pc.outcome.acknowledged)
    else if Refusal(h.phase.response) then Refuse(h.phase.response)
    else Perform(Empty, true)
  }

  /** The request a step answers, if any, at the moment it acts on the table. */
  function OpsOf(a: Api, action: ApiAction): seq<Op> {
    var a' := ApiStep(a, action);
    match Target(action)
    case None => []
    case Some(i) =>
      if !Answered(a, i) && Answered(a', i) && i < |a'.db.txs| then [Op(i, EffectOf(a'.handlers[i], a'.db.txs[i]))] else []
  }

  function Ops(a: Api, schedule: seq<ApiAction>): seq<Op> {
    if schedule == [] then [] else
    var before := schedule[..|schedule| - 1];
    Ops(a, before) + OpsOf(ApiExec(a, before), schedule[|schedule| - 1])
  }

  /** The memo table after serving the operations one at a time. */
  function ServeAll(memo: Memo, handlers: seq<Handler>, ops: seq<Op>): Memo
    requires forall k :: 0 <= k < |ops| ==> ops[k].i < |handlers|
  {
    if ops == [] then memo else
    var n := |ops| - 1;
    Serve(ServeAll(memo, handlers, ops[..n]), handlers[ops[n].i].req, ops[n].effect).0
  }

  // ---------- one step ----------

  /** One step of the server against the memo table. */
  ghost predicate StepServes(a: Api, action: ApiAction) {
    var a', ops := ApiStep(a, action), OpsOf(a, action);
    && |a'.handlers| == |a.handlers|
    && (forall j :: 0 <= j < |a.handlers| && Target(action) != Some(j) ==> a'.handlers[j] == a.handlers[j])
    && (forall j :: Answered(a, j) ==> a'.handlers[j] == a.handlers[j])
    && (if ops == [] then MemoOf(a') == MemoOf(a) && (forall j :: Answered(a', j) ==> Answered(a, j))
        else
          && |ops| == 1 && ops[0].i < |a.handlers| && !Answered(a, ops[0].i) && Target(action) == Some(ops[0].i)
          && a'.handlers[ops[0].i].phase.Finished?
          && Serve(MemoOf(a), a.handlers[ops[0].i].req, ops[0].effect) ==
               (MemoOf(a'), a'.handlers[ops[0].i].phase.response))
  }

  lemma CommittedKeys(c: Tables, q: Sequences, tx: Tx, req: Request)
    requires Shape(c, q, tx) && tx.pc.Commit? && tx.args == ArgsOf(req)
    ensures req.key != "" ==> KeyOf(req) !in c.keys
    ensures c.keys + tx.writes.keys ==
      if req.key != "" then c.keys[KeyOf(req) := KeyRow(FingerprintOf(req.body), Json(tx.result))] else c.keys
  {
    assert KeyShape(c, tx);
    if req.key != "" {
      assert KeyOf(req) in tx.writes.keys;
    }
  }

  /** The step of the server that commits a transaction. */
  lemma {:induction false} TxStepCommits(a: Api, i: nat, action: Action)
    requires i < |a.handlers| == |a.db.txs| && a.db.txs[i].pc.Commit?
    requires action == Statement(i) || action == LoseAck(i)
    ensures var a' := TxStep(a, i, action);
      && a'.db == CommitTx(a.db, i, action.Statement?)
      && |a'.handlers| == |a.handlers| && a'.handlers[i].req == a.handlers[i].req
      && a'.handlers[i].phase == Finished(if action.Statement? then OK(Json(a.db.txs[i].result), false) else InternalError)
  {
    CommitIsUnblocked(a.db, i, action);
  }

  lemma {:induction false} CommitServes(a: Api, i: nat, action: Action)
    requires i < |a.handlers| == |a.db.txs| && a.db.txs[i].pc.Commit?
    requires Shape(a.db.committed, a.db.seqs, a.db.txs[i]) && a.db.txs[i].args == ArgsOf(a.handlers[i].req)
    requires action == Statement(i) || action == LoseAck(i)
    ensures var a' := TxStep(a, i, action);
      && i < |a'.handlers| && a'.handlers[i].phase.Finished? && i < |a'.db.txs|
      && Serve(MemoOf(a), a.handlers[i].req, EffectOf(a'.handlers[i], a'.db.txs[i])) ==
           (MemoOf(a'), a'.handlers[i].phase.response)
  {
    TxStepCommits(a, i, action);
    CommittedKeys(a.db.committed, a.db.seqs, a.db.txs[i], a.handlers[i].req);
  }

  lemma QuietTx(s: Db, t: nat, action: Action)
    requires t < |s.txs| && ActsOn(action, t) && !s.txs[t].pc.Done? && (s.txs[t].pc.Commit? ==> action.Interrupt?)
    ensures |Step(s, action).txs| == |s.txs| && Step(s, action).committed == s.committed
    ensures !Won(Step(s, action).txs[t])
  {}

  lemma AnswerWithoutCommit(req: Request, tx: Tx)
    requires !Won(tx) && AfterTx(req, tx).Finished?
    ensures Refusal(AfterTx(req, tx).response)
  {}

  /** A step that commits nothing changes no key and answers with a refusal, or not at all. */
  lemma {:induction false} QuietServes(a: Api, i: nat, action: Action)
    requires i < |a.handlers| == |a.db.txs| && !a.db.txs[i].pc.Done?
    requires ActsOn(action, i) && (a.db.txs[i].pc.Commit? ==> action.Interrupt?)
    ensures var a' := TxStep(a, i, action);
      && |a'.handlers| == |a.handlers| && MemoOf(a') == MemoOf(a) && i < |a'.db.txs|
      && (a'.handlers[i].phase.Finished? ==> Refusal(a'.handlers[i].phase.response) && !Won(a'.db.txs[i]))
  {
    QuietTx(a.db, i, action);
    var tx' := Step(a.db, action).txs[i];
    if AfterTx(a.handlers[i].req, tx').Finished? {
      AnswerWithoutCommit(a.handlers[i].req, tx');
    }
  }

  lemma TxStepOthers(a: Api, i: nat, action: Action)
    requires i < |a.handlers| == |a.db.txs| && ActsOn(action, i)
    ensures var a' := TxStep(a, i, action);
      && |a'.handlers| == |a.handlers| == |a'.db.txs|
      && (forall j :: 0 <= j < |a.handlers| && j != i ==> a'.handlers[j] == a.handlers[j])
  {}

  /** A step that answers its own request, as the table does. */
  lemma {:induction false} OneServes(a: Api, action: ApiAction, i: nat)
    requires Target(action) == Some(i) && i < |a.handlers| && !Answered(a, i)
    requires var a' := ApiStep(a, action);
      && |a'.handlers| == |a.handlers| == |a'.db.txs| && Answered(a', i)
      && (forall j :: 0 <= j < |a.handlers| && j != i ==> a'.handlers[j] == a.handlers[j])
      && Serve(MemoOf(a), a.handlers[i].req, EffectOf(a'.handlers[i], a'.db.txs[i])) ==
           (MemoOf(a'), a'.handlers[i].phase.response)
    ensures StepServes(a, action)
  {}

  lemma {:induction false} CommitStepServes(a: Api, i: nat, action: Action, server: ApiAction)
    requires i < |a.handlers| == |a.db.txs| && a.handlers[i].phase.Running? && ActsOn(action, i)
    requires Shape(a.db.committed, a.db.seqs, a.db.txs[i]) && a.db.txs[i].args == ArgsOf(a.handlers[i].req)
    requires Target(server) == Some(i) && ApiStep(a, server) == TxStep(a, i, action)
    requires a.db.txs[i].pc.Commit? && !action.Interrupt?
    ensures StepServes(a, server)
  {
    TxStepOthers(a, i, action);
    CommitServes(a, i, action);
    OneServes(a, server, i);
  }

  lemma {:induction false} QuietStepServes(a: Api, i: nat, action: Action, server: ApiAction)
    requires i < |a.handlers| == |a.db.txs| && a.handlers[i].phase.Running? && ActsOn(action, i)
    requires !a.db.txs[i].pc.Done? && (a.db.txs[i].pc.Commit? ==> action.Interrupt?)
    requires Target(server) == Some(i) && ApiStep(a, server) == TxStep(a, i, action)
    ensures StepServes(a, server)
  {
    TxStepOthers(a, i, action);
    QuietServes(a, i, action);
  }

  lemma {:induction false} TxServes(a: Api, i: nat, action: Action, server: ApiAction)
    requires ApiInv(a) && i < |a.handlers| && a.handlers[i].phase.Running? && ActsOn(action, i)
    requires Target(server) == Some(i) && ApiStep(a, server) == TxStep(a, i, action)
    ensures StepServes(a, server)
  {
    assert HandlerOk(a.db.committed, a.handlers[i], a.db.txs[i]);
    if a.db.txs[i].pc.Commit? && !action.Interrupt? {
      CommitStepServes(a, i, action, server);
    } else {
      QuietStepServes(a, i, action, server);
    }
  }

  lemma ReplayServes(a: Api, i: nat)
    requires ApiInv(a) && i < |a.handlers| && a.handlers[i].phase.Replaying?
    ensures StepServes(a, Advance(i))
  {
    var h := a.handlers[i];
    assert HandlerOk(a.db.committed, h, a.db.txs[i]);
    assert Completed(a.db.committed, KeyOf(h.req));
  }

  /** A handler that only reads: it goes on to another phase, or is refused. */
  lemma PhaseServes(a: Api, i: nat, phase: Phase, action: ApiAction)
    requires ApiInv(a) && i < |a.handlers| && Target(action) == Some(i) && !Answered(a, i)
    requires ApiStep(a, action) == WithPhase(a, i, phase) && !Won(a.db.txs[i])
    requires phase.Finished? ==> Refusal(phase.response)
    ensures StepServes(a, action)
  {}

  lemma LocalServes(a: Api, i: nat, action: ApiAction)
    requires ApiInv(a) && i < |a.handlers| && Target(action) == Some(i)
    requires !a.handlers[i].phase.Running? && (a.handlers[i].phase.Replaying? ==> !action.Advance?)
    ensures StepServes(a, action)
  {
    var h := a.handlers[i];
    assert HandlerOk(a.db.committed, h, a.db.txs[i]);
    if !h.phase.Finished? && !action.DropAck? {
      var phase := ApiStep(a, action).handlers[i].phase;
      PhaseServes(a, i, phase, action);
    }
  }

  /** Every step either leaves the memo table and the answers alone, or answers one request as
      the atomic table answers it. */
  lemma {:induction false} EveryStepServes(a: Api, action: ApiAction)
    requires ApiInv(a)
    ensures StepServes(a, action)
  {
    match Target(action)
    case None =>
    case Some(i) =>
      if i < |a.handlers| {
        match a.handlers[i].phase
        case Running =>
          match action {
            case Advance(_) => TxServes(a, i, Statement(i), action);
            case Fail(_) => TxServes(a, i, Interrupt(i), action);
            case DropAck(_) => TxServes(a, i, LoseAck(i), action);
          }
        case Replaying => if action.Advance? { ReplayServes(a, i); } else { LocalServes(a, i, action); }
        case _ => LocalServes(a, i, action);
      }
  }

  // ---------- whole runs ----------

  ghost predicate Single(ops: seq<Op>, k: int)
    requires 0 <= k < |ops|
  {
    forall j :: 0 <= j < |ops| && ops[j].i == ops[k].i ==> j == k
  }

  /** Request i was served by exactly one operation, and got that operation's answer. */
  ghost predicate ServedOnce(memo: Memo, handlers: seq<Handler>, ops: seq<Op>, i: nat, answer: Response)
    requires i < |handlers| && forall k :: 0 <= k < |ops| ==> ops[k].i < |handlers|
  {
    exists k :: 0 <= k < |ops| && ops[k].i == i && Single(ops, k) &&
      Serve(ServeAll(memo, handlers, ops[..k]), handlers[i].req, ops[k].effect).1 == answer
  }

  ghost predicate Unserved(ops: seq<Op>, i: nat) {
    forall k :: 0 <= k < |ops| ==> ops[k].i != i
  }

  lemma {:induction false} ServedSnoc(memo: Memo, handlers: seq<Handler>, ops: seq<Op>, op: Op, i: nat, answer: Response)
    requires i < |handlers| && op.i < |handlers| && forall k :: 0 <= k < |ops| ==> ops[k].i < |handlers|
    ensures ServeAll(memo, handlers, ops + [op]) == Serve(ServeAll(memo, handlers, ops), handlers[op.i].req, op.effect).0
    ensures op.i != i && ServedOnce(memo, handlers, ops, i, answer) ==> ServedOnce(memo, handlers, ops + [op], i, answer)
    ensures op.i != i && Unserved(ops, i) ==> Unserved(ops + [op], i)
    ensures op.i == i && Unserved(ops, i) && Serve(ServeAll(memo, handlers, ops), handlers[i].req, op.effect).1 == answer ==>
      ServedOnce(memo, handlers, ops + [op], i, answer)
  {
    var ops' := ops + [op];
    assert ops'[..|ops|] == ops;
    if op.i != i && ServedOnce(memo, handlers, ops, i, answer) {
      var k :| 0 <= k < |ops| && ops[k].i == i && Single(ops, k) &&
        Serve(ServeAll(memo, handlers, ops[..k]), handlers[i].req, ops[k].effect).1 == answer;
      assert ops'[..k] == ops[..k] && ops'[k] == ops[k] && Single(ops', k);
    }
    if op.i == i && Unserved(ops, i) {
      assert ops'[|ops|] == op && Single(ops', |ops|);
    }
  }

  /** Only an error is an answer without a transfer or a stored row behind it. */
  predicate Admits(op: Op) {
    op.effect.Refuse? ==> Refusal(op.effect.response)
  }

  lemma {:induction false} OpsOfInRange(m: Api, action: ApiAction)
    requires |m.handlers| == |m.db.txs|
    ensures forall op :: op in OpsOf(m, action) ==> op.i < |m.handlers| && Admits(op)
  {
    ApiStepDb(m, action);
  }

  lemma {:induction false} OpsInRange(a: Api, schedule: seq<ApiAction>)
    requires |a.handlers| == |a.db.txs|
    ensures forall k :: 0 <= k < |Ops(a, schedule)| ==> Ops(a, schedule)[k].i < |a.handlers| && Admits(Ops(a, schedule)[k])
  {
    if schedule != [] {
      var before := schedule[..|schedule| - 1];
      OpsInRange(a, before);
      ApiRunsTheStore(a, before);
      OpsOfInRange(ApiExec(a, before), schedule[|schedule| - 1]);
    }
  }

  lemma StepServesRun(a: Api, m: Api, ops: seq<Op>, action: ApiAction, i: nat)
    requires |m.handlers| == |a.handlers| && i < |a.handlers|
    requires forall j :: 0 <= j < |a.handlers| ==> m.handlers[j].req == a.handlers[j].req
    requires forall k :: 0 <= k < |ops| ==> ops[k].i < |a.handlers|
    requires StepServes(m, action)
    requires MemoOf(m) == ServeAll(MemoOf(a), a.handlers, ops)
    requires if Answered(m, i) then ServedOnce(MemoOf(a), a.handlers, ops, i, m.handlers[i].phase.response) else Unserved(ops, i)
    ensures var m', ops' := ApiStep(m, action), ops + OpsOf(m, action);
      && (forall k :: 0 <= k < |ops'| ==> ops'[k].i < |a.handlers|)
      && i < |m'.handlers|
      && MemoOf(m') == ServeAll(MemoOf(a), a.handlers, ops')
      && (if Answered(m', i) then ServedOnce(MemoOf(a), a.handlers, ops', i, m'.handlers[i].phase.response) else Unserved(ops', i))
  {
    var m' := ApiStep(m, action);
    if OpsOf(m, action) == [] {
      assert ops + OpsOf(m, action) == ops;
    } else {
      var op := OpsOf(m, action)[0];
      assert OpsOf(m, action) == [op];
      var answer := if Answered(m', i) then m'.handlers[i].phase.response else InternalError;
      ServedSnoc(MemoOf(a), a.handlers, ops, op, i, answer);
    }
  }

  lemma {:induction false} RunServes(a: Api, schedule: seq<ApiAction>, i: nat)
    requires ApiInitial(a) && i < |a.handlers|
    ensures |ApiExec(a, schedule).handlers| == |a.handlers|
    ensures forall k :: 0 <= k < |Ops(a, schedule)| ==> Ops(a, schedule)[k].i < |a.handlers| && Admits(Ops(a, schedule)[k])
    ensures MemoOf(ApiExec(a, schedule)) == ServeAll(MemoOf(a), a.handlers, Ops(a, schedule))
    ensures if Answered(ApiExec(a, schedule), i)
      then ServedOnce(MemoOf(a), a.handlers, Ops(a, schedule), i, ApiExec(a, schedule).handlers[i].phase.response)
      else Unserved(Ops(a, schedule), i)
  {
    ApiRunsTheStore(a, schedule);
    OpsInRange(a, schedule);
    if schedule != [] {
      var before, last := schedule[..|schedule| - 1], schedule[|schedule| - 1];
      RunServes(a, before, i);
      ApiRunsTheStore(a, before);
      ApiExecInv(a, before);
      EveryStepServes(ApiExec(a, before), last);
      StepServesRun(a, ApiExec(a, before), Ops(a, before), last, i);
    }
  }

  /** What the run must show for the table to refuse request i with r. */
  ghost predicate Due(a: Api, schedule: seq<ApiAction>, i: nat, r: Response)
    requires i < |a.handlers|
  {
    var m, req := ApiExec(a, schedule), a.handlers[i].req;
    && i < |m.db.txs|
    && RefusalFits(m.db.committed, req, r)
    && (r == NotFound ==> !AccountsExist(a.db.committed, ArgsOf(req).transfer))
    && (r == BadRequest(InsufficientBalance) ==> m.db.txs[i].pc == Done(Failed(BalanceCheckViolation, true)))
    && (r == InternalError ==> !CallsSucceed(schedule, i) || m.db.txs[i].pc == Done(Failed(OutOfRange, true)))
  }

  lemma {:induction false} NotFoundIsDue(a: Api, schedule: seq<ApiAction>, i: nat)
    requires ApiInitial(a) && i < |a.handlers| && i < |ApiExec(a, schedule).handlers|
    requires ApiExec(a, schedule).handlers[i].phase == Finished(NotFound)
    ensures !AccountsExist(a.db.committed, ArgsOf(a.handlers[i].req).transfer)
  {
    var n := NotFoundMeansMissing(a, schedule, i);
    ApiRunsTheStore(a, schedule[..n]);
    AccountsStay(a.db, StoreSchedule(a, schedule[..n]));
  }

  lemma {:induction false} AnswersAreDue(a: Api, schedule: seq<ApiAction>, i: nat)
    requires ApiInitial(a) && i < |a.handlers| && Answered(ApiExec(a, schedule), i)
    ensures Due(a, schedule, i, ApiExec(a, schedule).handlers[i].phase.response)
  {
    ApiRunsTheStore(a, schedule);
    RefusalsAreTruthful(a, schedule, i);
    if ApiExec(a, schedule).handlers[i].phase.response == NotFound {
      NotFoundIsDue(a, schedule, i);
    }
    if CallsSucceed(schedule, i) {
      InternalErrorMeansOverflow(a, schedule, i);
    }
  }

  /** An operation that refuses gave its request the answer it has at the end. */
  lemma {:induction false} RefusalsAreDue(a: Api, schedule: seq<ApiAction>, k: nat)
    requires ApiInitial(a) && k < |Ops(a, schedule)| && Ops(a, schedule)[k].effect.Refuse?
    ensures Ops(a, schedule)[k].i < |a.handlers|
    ensures Due(a, schedule, Ops(a, schedule)[k].i, Ops(a, schedule)[k].effect.response)
  {
    ApiRunsTheStore(a, schedule);
    OpsInRange(a, schedule);
    var ops, i := Ops(a, schedule), Ops(a, schedule)[k].i;
    RunServes(a, schedule, i);
    assert Answered(ApiExec(a, schedule), i);
    AnswersAreDue(a, schedule, i);
  }

  /** The handlers and the store refine the atomic memo table. For every interleaving, serving
      the answered requests one at a time, in the order of the moments at which they acted,
      gives the idempotency_keys table of the run and gives each request the answer it got;
      each answered request is served exactly once and no other request at all. The table
      refuses only what it is due to refuse: the run shows the reason, and without a failed
      call of its own a request is refused with 500 only for a balance that did not fit. */
  lemma {:induction false} RefinesMemoTable(a: Api, schedule: seq<ApiAction>, i: nat)
    requires ApiInitial(a) && i < |a.handlers|
    ensures |ApiExec(a, schedule).handlers| == |a.handlers|
    ensures forall k :: 0 <= k < |Ops(a, schedule)| ==> Ops(a, schedule)[k].i < |a.handlers| && Admits(Ops(a, schedule)[k])
    ensures forall k :: 0 <= k < |Ops(a, schedule)| && Ops(a, schedule)[k].effect.Refuse? ==>
      Due(a, schedule, Ops(a, schedule)[k].i, Ops(a, schedule)[k].effect.response)
    ensures MemoOf(ApiExec(a, schedule)) == ServeAll(MemoOf(a), a.handlers, Ops(a, schedule))
    ensures if Answered(ApiExec(a, schedule), i)
      then ServedOnce(MemoOf(a), a.handlers, Ops(a, schedule), i, ApiExec(a, schedule).handlers[i].phase.response)
      else Unserved(Ops(a, schedule), i)
  {
    RunServes(a, schedule, i);
    forall k | 0 <= k < |Ops(a, schedule)| && Ops(a, schedule)[k].effect.Refuse?
      ensures Due(a, schedule, Ops(a, schedule)[k].i, Ops(a, schedule)[k].effect.response)
    {
      RefusalsAreDue(a, schedule, k);
    }
  }

  // ---------- failures and the tables ----------

  lemma {:induction false} CommitChangesTables(c: Tables, q: Sequences, tx: Tx)
    requires Shape(c, q, tx) && tx.pc.Commit?
    ensures Overlay(c, tx.writes) != c
  {
    var id := tx.result.transfer.id;
    assert id in tx.writes.transfers && id in Overlay(c, tx.writes).transfers && id !in c.transfers;
  }

  /** A request that has just been answered with an error. */
  ghost predicate JustFailed(m: Api, action: ApiAction, i: nat) {
    && Target(action) == Some(i) && !Answered(m, i)
    && Answered(ApiStep(m, action), i) && !ApiStep(m, action).handlers[i].phase.response.OK?
  }

  lemma {:induction false} CommitStepBooks(m: Api, action: ApiAction, i: nat)
    requires ApiInv(m) && i < |m.handlers| && m.handlers[i].phase.Running? && m.db.txs[i].pc.Commit?
    requires action == Advance(i) || action == DropAck(i)
    ensures ApiStep(m, action).db.committed != m.db.committed
    ensures action.Advance? ==> i < |ApiStep(m, action).handlers| && ApiStep(m, action).handlers[i].phase == Finished(OK(Json(m.db.txs[i].result), false))
  {
    TxStepCommits(m, i, StoreAction(m, action)[0]);
    CommitChangesTables(m.db.committed, m.db.seqs, m.db.txs[i]);
  }

  lemma {:induction false} QuietStepKeeps(m: Api, action: ApiAction, i: nat)
    requires ApiInv(m) && i < |m.handlers| && Target(action) == Some(i)
    requires m.handlers[i].phase.Running? ==> action.Fail? || !m.db.txs[i].pc.Commit?
    ensures ApiStep(m, action).db.committed == m.db.committed
  {
    assert HandlerOk(m.db.committed, m.handlers[i], m.db.txs[i]);
    ApiStepDb(m, action);
    if m.handlers[i].phase.Running? {
      QuietTx(m.db, i, StoreAction(m, action)[0]);
    }
  }

  lemma {:induction false} FailureStep(m: Api, action: ApiAction, i: nat)
    requires ApiInv(m) && i < |m.handlers| && JustFailed(m, action, i)
    ensures ApiStep(m, action).db.committed != m.db.committed <==> action.DropAck? && m.db.txs[i].pc.Commit?
  {
    if m.handlers[i].phase.Running? && m.db.txs[i].pc.Commit? && !action.Fail? {
      CommitStepBooks(m, action, i);
    } else {
      QuietStepKeeps(m, action, i);
    }
  }

  /** A failed request leaves no trace, with one exception. At the step that answers a request
      with anything but 200 every table stays as it was, unless that step is a COMMIT that takes
      effect and loses its reply: then the transfer is booked, with a key or without. */
  lemma {:induction false} FailuresLeaveNoTrace(a: Api, schedule: seq<ApiAction>, action: ApiAction, i: nat)
    requires ApiInitial(a) && i < |a.handlers| && JustFailed(ApiExec(a, schedule), action, i)
    requires i < |ApiExec(a, schedule).db.txs|
    ensures ApiExec(a, schedule + [action]).db.committed != ApiExec(a, schedule).db.committed <==>
      action.DropAck? && ApiExec(a, schedule).db.txs[i].pc.Commit?
  {
    ApiExecInv(a, schedule);
    ApiRunsTheStore(a, schedule);
    ApiExecSnoc(a, schedule, action);
    FailureStep(ApiExec(a, schedule), action, i);
  }
}
