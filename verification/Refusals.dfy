/** Why a request got the refusal it got. */
module Refusals {
  import opened Schema
  import opened TransferStore
  import opened StoreInvariant
  import opened LockOrder
  import opened Idempotency
  import opened TransferApi
  import opened ApiInvariant

  // ---------- refusals that the tables show ----------

  /** A handler refuses for the reason it gives: a malformed body and equal ids exactly when the
      request has them, another currency, another owner or too long a key only when the tables
      and the request show it, and "insufficient balance" exactly when the balance CHECK
      refused the transfer and the rollback went through. */
  lemma {:induction false} RefusalsAreTruthful(a: Api, schedule: seq<ApiAction>, i: nat)
    requires ApiInitial(a) && i < |a.handlers|
    requires i < |ApiExec(a, schedule).handlers| && i < |ApiExec(a, schedule).db.txs|
    requires ApiExec(a, schedule).handlers[i].phase.Finished?
    ensures var m := ApiExec(a, schedule);
      var r := m.handlers[i].phase.response;
      && RefusalFits(m.db.committed, a.handlers[i].req, r)
      && (r == BadRequest(InsufficientBalance) <==> m.db.txs[i].pc == Done(Failed(BalanceCheckViolation, true)))
  {
    ApiExecInv(a, schedule);
    ApiRunsTheStore(a, schedule);
    var m := ApiExec(a, schedule);
    assert HandlerOk(m.db.committed, m.handlers[i], m.db.txs[i]);
  }

  // ---------- which refusal, and when ----------

  predicate ProperBody(req: Request) {
    var b := req.body;
    b.from >= 1 && b.to >= 1 && b.amount > 0 && b.currency in {"USD", "EUR", "CAD"} && b.from != b.to
  }

  /** What a request and the accounts must be for the first read to end in this refusal. */
  predicate FromReason(accounts: map<int, Account>, req: Request, r: Response) {
    var b := req.body;
    match r
    case BadRequest(Malformed) => b.from < 1 || b.to < 1 || b.amount <= 0 || b.currency !in {"USD", "EUR", "CAD"}
    case BadRequest(SameAccount) => b.from >= 1 && b.amount > 0 && b.currency in {"USD", "EUR", "CAD"} && b.from == b.to
    case NotFound => ProperBody(req) && b.from !in accounts
    case BadRequest(CurrencyMismatch) => ProperBody(req) && b.from in accounts && accounts[b.from].currency != b.currency
    case Unauthorized =>
      && ProperBody(req) && b.from in accounts
      && accounts[b.from].currency == b.currency && accounts[b.from].owner != req.user
    case _ => false
  }

  /** The same for the second read, which is only made if the first one found nothing amiss. */
  predicate ToReason(accounts: map<int, Account>, req: Request, r: Response) {
    var b := req.body;
    match r
    case NotFound => b.to !in accounts
    case BadRequest(CurrencyMismatch) => b.to in accounts && accounts[b.to].currency != b.currency
    case BadRequest(KeyTooLong) => b.to in accounts && accounts[b.to].currency == b.currency && |req.key| > 128
    case _ => false
  }

  /** The first read answers each refusal exactly if the accounts it finds call for it, the
      currency before the owner, and goes on exactly if all is in order. */
  lemma {:induction false} FirstReadDecides(a: Api, schedule: seq<ApiAction>, i: nat, r: Response)
    requires i < |ApiExec(a, schedule).handlers| && ApiExec(a, schedule).handlers[i].phase.ReadFrom?
    ensures i < |ApiExec(a, schedule + [Advance(i)]).handlers|
    ensures var req, c := ApiExec(a, schedule).handlers[i].req, ApiExec(a, schedule).db.committed.accounts;
      var phase := ApiExec(a, schedule + [Advance(i)]).handlers[i].phase;
      && (phase == Finished(r) <==> FromReason(c, req, r))
      && (phase == ReadTo <==>
            && ProperBody(req) && req.body.from in c
            && c[req.body.from].currency == req.body.currency && c[req.body.from].owner == req.user)
  {
    ApiExecSnoc(a, schedule, Advance(i));
  }

  /** And so does the second one. */
  lemma {:induction false} SecondReadDecides(a: Api, schedule: seq<ApiAction>, i: nat, r: Response)
    requires i < |ApiExec(a, schedule).handlers| && ApiExec(a, schedule).handlers[i].phase.ReadTo?
    ensures i < |ApiExec(a, schedule + [Advance(i)]).handlers|
    ensures var req, c := ApiExec(a, schedule).handlers[i].req, ApiExec(a, schedule).db.committed.accounts;
      var phase := ApiExec(a, schedule + [Advance(i)]).handlers[i].phase;
      && (phase == Finished(r) <==> ToReason(c, req, r))
      && (phase == Running <==> req.body.to in c && c[req.body.to].currency == req.body.currency && |req.key| <= 128)
  {
    ApiExecSnoc(a, schedule, Advance(i));
  }

  /** The refusals that the two reads give. */
  predicate ByARead(r: Response) {
    r.NotFound? || r.Unauthorized? || (r.BadRequest? && r.why != InsufficientBalance)
  }

  lemma AfterTxIsNoRead(req: Request, tx: Tx)
    ensures AfterTx(req, tx).Finished? ==> !ByARead(AfterTx(req, tx).response)
  {}

  /** A read of handler h that finds these accounts and ends in r. */
  predicate Reads(h: Handler, accounts: map<int, Account>, r: Response) {
    || (h.phase.ReadFrom? && FromReason(accounts, h.req, r))
    || (h.phase.ReadTo? && ToReason(accounts, h.req, r))
  }

  lemma {:induction false} RefusalArisesAtRead(m: Api, action: ApiAction, i: nat, r: Response)
    requires ApiInv(m) && i < |m.handlers| && !Answered(m, i) && ByARead(r)
    requires i < |ApiStep(m, action).handlers| && ApiStep(m, action).handlers[i].phase == Finished(r)
    ensures Reads(m.handlers[i], m.db.committed.accounts, r)
  {
    if Target(action) != Some(i) {
      OtherHandler(m, action, i);
    } else if m.handlers[i].phase.Running? {
      AfterTxIsNoRead(m.handlers[i].req, ApiStep(m, action).db.txs[i]);
    }
  }

  lemma {:induction false} AnswerStays(m: Api, action: ApiAction, i: nat)
    requires |m.handlers| == |m.db.txs| && Answered(m, i)
    ensures Answered(ApiStep(m, action), i) && ApiStep(m, action).handlers[i] == m.handlers[i]
  {
    ApiStepDb(m, action);
    if Target(action) != Some(i) {
      OtherHandler(m, action, i);
    }
  }

  /** Every such refusal is the outcome of a read at which the accounts called for it. */
  lemma {:induction false} RefusedAtARead(a: Api, schedule: seq<ApiAction>, i: nat, r: Response) returns (n: nat)
    requires ApiInitial(a) && i < |a.handlers| && ByARead(r)
    requires i < |ApiExec(a, schedule).handlers| && ApiExec(a, schedule).handlers[i].phase == Finished(r)
    ensures n < |schedule| && Target(schedule[n]) == Some(i)
    ensures var m := ApiExec(a, schedule[..n]);
      && i < |m.handlers| && m.handlers[i].req == a.handlers[i].req
      && Reads(m.handlers[i], m.db.committed.accounts, r)
  {
    n := |schedule| - 1;
    var before := schedule[..n];
    ApiRunsTheStore(a, before);
    ApiExecInv(a, before);
    var m := ApiExec(a, before);
    if Answered(m, i) {
      AnswerStays(m, schedule[n], i);
      n := RefusedAtARead(a, before, i, r);
      assert schedule[..n] == before[..n];
    } else {
      RefusalArisesAtRead(m, schedule[n], i, r);
      if Target(schedule[n]) != Some(i) {
        OtherHandler(m, schedule[n], i);
        assert false;
      }
    }
  }

  // ---------- refusals by a balance ----------

  lemma {:induction false} BalanceStep(m: Api, action: ApiAction, i: nat, e: Error)
    requires ApiInv(m) && i < |m.db.txs| && (e == BalanceCheckViolation || e == OutOfRange)
    requires i < |ApiStep(m, action).db.txs| && FailedBy(ApiStep(m, action).db.txs[i].pc, e) && !FailedBy(m.db.txs[i].pc, e)
    ensures action == Advance(i) && !Blocked(m.db, i) && UpdateFails(m.db, i, e)
  {
    ApiStepDb(m, action);
    if Target(action) != Some(i) {
      OtherHandler(m, action, i);
      assert false;
    }
    assert HandlerOk(m.db.committed, m.handlers[i], m.db.txs[i]);
    RefusedUpdate(m.db, StoreAction(m, action)[0], i, e);
  }

  /** A transfer refused for a balance was refused at one call of its handler: its debit, with
      less than its amount on the source then, or its credit, with no room on the target then. */
  lemma {:induction false} BalanceRefusal(a: Api, schedule: seq<ApiAction>, i: nat, e: Error) returns (n: nat)
    requires ApiInitial(a) && i < |a.handlers| && (e == BalanceCheckViolation || e == OutOfRange)
    requires i < |ApiExec(a, schedule).db.txs| && FailedBy(ApiExec(a, schedule).db.txs[i].pc, e)
    ensures n < |schedule| && schedule[n] == Advance(i)
    ensures var m := ApiExec(a, schedule[..n]);
      i < |m.db.txs| && m.db.txs[i].args == ArgsOf(a.handlers[i].req) && !Blocked(m.db, i) && UpdateFails(m.db, i, e)
  {
    n := |schedule| - 1;
    var before := schedule[..n];
    ApiRunsTheStore(a, before);
    ApiExecInv(a, before);
    var m := ApiExec(a, before);
    assert HandlerOk(m.db.committed, m.handlers[i], m.db.txs[i]);
    if FailedBy(m.db.txs[i].pc, e) {
      n := BalanceRefusal(a, before, i, e);
      assert schedule[..n] == before[..n];
    } else {
      BalanceStep(m, schedule[n], i, e);
    }
  }

  /** "insufficient balance" is never answered without cause: the committed balance of the source
      was below the amount at the very call that debited it. */
  lemma {:induction false} InsufficientMeansShort(a: Api, schedule: seq<ApiAction>, i: nat) returns (n: nat)
    requires ApiInitial(a) && i < |a.handlers| && i < |ApiExec(a, schedule).handlers|
    requires ApiExec(a, schedule).handlers[i].phase == Finished(BadRequest(InsufficientBalance))
    ensures n < |schedule| && schedule[n] == Advance(i)
    ensures var m, b := ApiExec(a, schedule[..n]), a.handlers[i].req.body;
      && i < |m.db.txs| && AtDebit(m.db.txs[i]) && !Blocked(m.db, i)
      && b.from in m.db.committed.accounts && m.db.committed.accounts[b.from].balance < b.amount
  {
    ApiExecInv(a, schedule);
    var m := ApiExec(a, schedule);
    assert HandlerOk(m.db.committed, m.handlers[i], m.db.txs[i]);
    n := BalanceRefusal(a, schedule, i, BalanceCheckViolation);
  }

  // ---------- 404 ----------

  lemma No404AfterTx(req: Request, tx: Tx)
    ensures AfterTx(req, tx) != Finished(NotFound)
  {}

  /** A handler that has just answered 404 has just read an account that was not there. */
  lemma {:induction false} MissingStep(m: Api, action: ApiAction, i: nat)
    requires ApiInv(m) && i < |m.handlers| && m.handlers[i].phase != Finished(NotFound)
    requires i < |ApiStep(m, action).handlers| && ApiStep(m, action).handlers[i].phase == Finished(NotFound)
    ensures action == Advance(i)
    ensures var h, c := m.handlers[i], m.db.committed.accounts;
      (h.phase.ReadFrom? && h.req.body.from !in c) || (h.phase.ReadTo? && h.req.body.to !in c)
  {
    if Target(action) != Some(i) {
      OtherHandler(m, action, i);
    } else if m.handlers[i].phase.Running? {
      No404AfterTx(m.handlers[i].req, ApiStep(m, action).db.txs[i]);
    }
  }

  /** 404 is never answered without cause: at the call that answered it the handler read the
      source account, or the target account, and it did not exist. */
  lemma {:induction false} NotFoundMeansMissing(a: Api, schedule: seq<ApiAction>, i: nat) returns (n: nat)
    requires ApiInitial(a) && i < |a.handlers| && i < |ApiExec(a, schedule).handlers|
    requires ApiExec(a, schedule).handlers[i].phase == Finished(NotFound)
    ensures n < |schedule| && schedule[n] == Advance(i) && i < |ApiExec(a, schedule[..n]).handlers|
    ensures var m, b := ApiExec(a, schedule[..n]), a.handlers[i].req.body;
      || (m.handlers[i].phase.ReadFrom? && b.from !in m.db.committed.accounts)
      || (m.handlers[i].phase.ReadTo? && b.to !in m.db.committed.accounts)
  {
    n := |schedule| - 1;
    var before := schedule[..n];
    ApiRunsTheStore(a, before);
    ApiExecInv(a, before);
    if ApiExec(a, before).handlers[i].phase == Finished(NotFound) {
      n := NotFoundMeansMissing(a, before, i);
      assert schedule[..n] == before[..n];
    } else {
      MissingStep(ApiExec(a, before), schedule[n], i);
    }
  }

  // ---------- 500 ----------

  /** No call of request i fails for an outside reason, and no reply of it is lost. */
  ghost predicate CallsSucceed(schedule: seq<ApiAction>, i: nat) {
    forall x :: 0 <= x < |schedule| ==> schedule[x] != Fail(i) && schedule[x] != DropAck(i)
  }

  predicate OwnError(e: Error) {
    e == UniqueViolation || e == BalanceCheckViolation || e == OutOfRange
  }

  /** Left to itself a transaction ends by committing or with one of three errors. */
  ghost predicate OwnEnd(pc: Pc) {
    && (pc.RollBack? ==> OwnError(pc.cause))
    && (pc.Done? ==> pc == Done(Committed(true)) || exists e | OwnError(e) :: pc == Done(Failed(e, true)))
  }

  ghost predicate Undisturbed(h: Handler, tx: Tx) {
    OwnEnd(tx.pc) && (h.phase == Finished(InternalError) <==> tx.pc == Done(Failed(OutOfRange, true)))
  }

  lemma StatementErrors(c: Tables, q: Sequences, tx: Tx)
    requires Shape(c, q, tx) && AccountsExist(c, tx.args.transfer) && !tx.pc.Done? && OwnEnd(tx.pc)
    ensures OwnEnd(RunStatement(c, q, tx).pc)
  {}

  lemma AnswerToOwnEnd(req: Request, tx: Tx)
    requires OwnEnd(tx.pc) && (Refused(tx.pc) ==> req.key != "")
    ensures AfterTx(req, tx) == Finished(InternalError) <==> tx.pc == Done(Failed(OutOfRange, true))
  {}

  lemma {:induction false} OwnEndStep(s: Db, t: nat)
    requires Inv(s) && t < |s.txs| && !s.txs[t].pc.Done? && OwnEnd(s.txs[t].pc)
    requires AccountsExist(s.committed, s.txs[t].args.transfer)
    ensures t < |Step(s, Statement(t)).txs| && OwnEnd(Step(s, Statement(t)).txs[t].pc)
  {
    if s.txs[t].pc.Commit? {
      CommitIsUnblocked(s, t, Statement(t));
    } else if !Blocked(s, t) {
      StatementErrors(s.committed, s.seqs, s.txs[t]);
    }
  }

  lemma {:induction false} UndisturbedTx(m: Api, i: nat)
    requires ApiInv(m) && i < |m.handlers| && m.handlers[i].phase.Running?
    requires OwnEnd(m.db.txs[i].pc)
    ensures var m' := TxStep(m, i, Statement(i));
      i < |m'.handlers| && i < |m'.db.txs| && Undisturbed(m'.handlers[i], m'.db.txs[i])
  {
    var tx, tx' := m.db.txs[i], Step(m.db, Statement(i)).txs[i];
    assert HandlerOk(m.db.committed, m.handlers[i], tx);
    OwnEndStep(m.db, i);
    if Refused(tx'.pc) {
      RefusedTx(m.db, Statement(i), i);
    }
    AnswerToOwnEnd(m.handlers[i].req, tx');
  }

  lemma {:induction false} UndisturbedStep(m: Api, action: ApiAction, i: nat)
    requires ApiInv(m) && i < |m.handlers| && Undisturbed(m.handlers[i], m.db.txs[i])
    requires action != Fail(i) && action != DropAck(i)
    ensures var m' := ApiStep(m, action);
      i < |m'.handlers| && i < |m'.db.txs| && Undisturbed(m'.handlers[i], m'.db.txs[i])
  {
    if Target(action) != Some(i) {
      OtherHandler(m, action, i);
    } else if m.handlers[i].phase.Running? {
      UndisturbedTx(m, i);
    } else {
      assert HandlerOk(m.db.committed, m.handlers[i], m.db.txs[i]);
    }
  }

  lemma {:induction false} StaysUndisturbed(a: Api, schedule: seq<ApiAction>, i: nat)
    requires ApiInitial(a) && i < |a.handlers| && CallsSucceed(schedule, i)
    ensures i < |ApiExec(a, schedule).handlers| && i < |ApiExec(a, schedule).db.txs|
    ensures Undisturbed(ApiExec(a, schedule).handlers[i], ApiExec(a, schedule).db.txs[i])
  {
    if schedule != [] {
      var before := schedule[..|schedule| - 1];
      StaysUndisturbed(a, before, i);
      ApiExecInv(a, before);
      UndisturbedStep(ApiExec(a, before), schedule[|schedule| - 1], i);
    }
  }

  /** A request none of whose own calls fails is answered 500 exactly when its transaction was
      rolled back because a balance did not fit its column. */
  lemma {:induction false} InternalErrorMeansOverflow(a: Api, schedule: seq<ApiAction>, i: nat)
    requires ApiInitial(a) && i < |a.handlers| && CallsSucceed(schedule, i)
    ensures i < |ApiExec(a, schedule).handlers| && i < |ApiExec(a, schedule).db.txs|
    ensures ApiExec(a, schedule).handlers[i].phase == Finished(InternalError) <==>
      ApiExec(a, schedule).db.txs[i].pc == Done(Failed(OutOfRange, true))
  {
    StaysUndisturbed(a, schedule, i);
  }

  /** So 500 is never answered without cause: at the call that credited the target the amount
      did not fit. */
  lemma {:induction false} InternalErrorMeansFull(a: Api, schedule: seq<ApiAction>, i: nat) returns (n: nat)
    requires ApiInitial(a) && i < |a.handlers| && CallsSucceed(schedule, i)
    requires i < |ApiExec(a, schedule).handlers|
    requires ApiExec(a, schedule).handlers[i].phase == Finished(InternalError)
    ensures n < |schedule| && schedule[n] == Advance(i)
    ensures var m, b := ApiExec(a, schedule[..n]), a.handlers[i].req.body;
      && i < |m.db.txs| && AtCredit(m.db.txs[i]) && !Blocked(m.db, i)
      && b.to in m.db.committed.accounts && m.db.committed.accounts[b.to].balance + b.amount > INT64_MAX
  {
    InternalErrorMeansOverflow(a, schedule, i);
    n := BalanceRefusal(a, schedule, i, OutOfRange);
  }

  // ---------- a failed call ----------

  /** A call of this handler has failed: it is answered 500, or about to be. */
  ghost predicate Broken(h: Handler, tx: Tx) {
    && !Won(tx)
    && match h.phase
       case Finished(r) => r == InternalError
       case Running => tx.pc == RollBack(Interrupted)
       case _ => false
  }

  lemma InterruptBreaks(req: Request, tx: Tx)
    requires !tx.pc.Done?
    ensures var tx' := InterruptTx(tx);
      && Broken(Handler(req, AfterTx(req, tx')), tx')
      && (AfterTx(req, tx').Running? ==> !tx.pc.Begin? && !tx.pc.Commit? && !tx.pc.RollBack?)
  {}

  lemma {:induction false} FailBreaks(m: Api, i: nat)
    requires ApiInv(m) && i < |m.handlers| && !Answered(m, i) && (m.handlers[i].phase.ReadFrom? ==> ProperBody(m.handlers[i].req))
    ensures var m' := ApiStep(m, Fail(i));
      && i < |m'.handlers| && i < |m'.db.txs| && Broken(m'.handlers[i], m'.db.txs[i])
      && (m'.handlers[i].phase.Running? ==>
            m.handlers[i].phase.Running? && !m.db.txs[i].pc.Begin? && !m.db.txs[i].pc.Commit? && !m.db.txs[i].pc.RollBack?)
  {
    assert HandlerOk(m.db.committed, m.handlers[i], m.db.txs[i]);
    if m.handlers[i].phase.Running? {
      InterruptBreaks(m.handlers[i].req, m.db.txs[i]);
    }
  }

  lemma {:induction false} BrokenStep(m: Api, action: ApiAction, i: nat)
    requires ApiInv(m) && i < |m.handlers| && Broken(m.handlers[i], m.db.txs[i])
    ensures var m' := ApiStep(m, action);
      i < |m'.handlers| && i < |m'.db.txs| && Broken(m'.handlers[i], m'.db.txs[i])
  {
    if Target(action) != Some(i) {
      OtherHandler(m, action, i);
    }
  }

  lemma {:induction false} StaysBroken(a: Api, first: seq<ApiAction>, rest: seq<ApiAction>, i: nat)
    requires ApiInitial(a) && i < |ApiExec(a, first).handlers| && i < |ApiExec(a, first).db.txs|
    requires Broken(ApiExec(a, first).handlers[i], ApiExec(a, first).db.txs[i])
    ensures i < |ApiExec(a, first + rest).handlers| && i < |ApiExec(a, first + rest).db.txs|
    ensures Broken(ApiExec(a, first + rest).handlers[i], ApiExec(a, first + rest).db.txs[i])
  {
    if rest == [] {
      assert first + rest == first;
    } else {
      var n := |rest| - 1;
      StaysBroken(a, first, rest[..n], i);
      ApiExecInv(a, first + rest[..n]);
      BrokenStep(ApiExec(a, first + rest[..n]), rest[n], i);
      ApiExecLast(a, first, rest);
    }
  }

  /** A failed call means 500. Once a call of an unanswered request has failed from outside, its
      transfer is never booked and it is answered 500, if at all: at once, if the call was a read,
      the BEGIN, the COMMIT or the Rollback, whatever error the Rollback was for, and otherwise
      after the rollback. A request that is refused without a read has no call to fail. */
  lemma {:induction false} FailedCallMeans500(a: Api, first: seq<ApiAction>, rest: seq<ApiAction>, i: nat)
    requires ApiInitial(a) && i < |ApiExec(a, first).handlers| && !Answered(ApiExec(a, first), i)
    requires ApiExec(a, first).handlers[i].phase.ReadFrom? ==> ProperBody(ApiExec(a, first).handlers[i].req)
    ensures i < |ApiExec(a, first).db.txs| && i < |ApiExec(a, first + [Fail(i)]).handlers|
    ensures var h, pc := ApiExec(a, first).handlers[i], ApiExec(a, first).db.txs[i].pc;
      !h.phase.Running? || pc.Begin? || pc.Commit? || pc.RollBack? ==>
        ApiExec(a, first + [Fail(i)]).handlers[i].phase == Finished(InternalError)
    ensures i < |ApiExec(a, first + [Fail(i)] + rest).handlers| && i < |ApiExec(a, first + [Fail(i)] + rest).db.txs|
    ensures !Won(ApiExec(a, first + [Fail(i)] + rest).db.txs[i])
    ensures Answered(ApiExec(a, first + [Fail(i)] + rest), i) ==>
      ApiExec(a, first + [Fail(i)] + rest).handlers[i].phase == Finished(InternalError)
  {
    ApiExecInv(a, first);
    ApiExecSnoc(a, first, Fail(i));
    FailBreaks(ApiExec(a, first), i);
    StaysBroken(a, first + [Fail(i)], rest, i);
  }
}
