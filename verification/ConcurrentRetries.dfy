/** One click, one transfer: any number of equal keyed requests at once. */
module ConcurrentRetries {
  import opened Schema
  import opened TransferStore
  import opened StoreInvariant
  import opened Serial
  import opened Serializability
  import opened LockOrder
  import opened Idempotency
  import opened TransferApi
  import opened ApiInvariant
  import opened MemoTable
  import opened Refusals
  import opened Retries

  predicate Asks(a: Api, j: int, req: Request) {
    0 <= j < |a.handlers| && a.handlers[j].req == req
  }

  /** No call of the handlers of this request fails, and no reply is lost. */
  ghost predicate TheirCallsSucceed(a: Api, schedule: seq<ApiAction>, req: Request) {
    forall j: nat :: Asks(a, j, req) ==> CallsSucceed(schedule, j)
  }

  predicate Payable(m: Api, req: Request) {
    AccountsExist(m.db.committed, ArgsOf(req).transfer) && Affordable(m.db.committed.accounts, ArgsOf(req).transfer)
  }

  /** Until its key is spent, the balances allow the transfer. */
  ghost predicate PayableUntilSpent(a: Api, schedule: seq<ApiAction>, req: Request) {
    schedule != [] ==>
      var before := schedule[..|schedule| - 1];
      && PayableUntilSpent(a, before, req)
      && (KeyOf(req) !in MemoOf(ApiExec(a, before)) ==> Payable(ApiExec(a, before), req))
  }

  // ---------- one request among them ----------

  predicate Pending(phase: Phase, pc: Pc) {
    phase.ReadFrom? || phase.ReadTo? || (phase.Running? && !HasFailed(pc))
  }

  predicate Paid(phase: Phase, tx: Tx) {
    Won(tx) && phase == Finished(OK(Json(tx.result), false))
  }

  /** While the key is unspent the request has not failed; afterwards it has won, or is on its
      way to the replay. */
  ghost predicate Bidding(m: Api, j: nat, req: Request) {
    && j < |m.handlers| == |m.db.txs| && m.handlers[j].req == req && req.key != ""
    && Checked(m.db.committed, req)
    && if KeyOf(req) !in MemoOf(m) then Pending(m.handlers[j].phase, m.db.txs[j].pc)
       else Paid(m.handlers[j].phase, m.db.txs[j]) || OnReplay(m, j, req, MemoOf(m)[KeyOf(req)])
  }

  lemma StatementSucceeds(s: Db, t: nat)
    requires Inv(s) && t < |s.txs| && !Blocked(s, t) && !s.txs[t].pc.Commit? && !s.txs[t].pc.Done? && !HasFailed(s.txs[t].pc)
    requires Proper(s.txs[t].args.transfer) && Unclaimed(s.committed.keys, s.txs[t].args.claim)
    requires AccountsExist(s.committed, s.txs[t].args.transfer) && Affordable(s.committed.accounts, s.txs[t].args.transfer)
    ensures t < |Step(s, Statement(t)).txs| && !HasFailed(Step(s, Statement(t)).txs[t].pc)
    ensures Step(s, Statement(t)).committed == s.committed
  {
    UpdatesAreExact(s, t);
    assert Shape(s.committed, s.seqs, s.txs[t]);
  }

  lemma {:induction false} BidCommits(m: Api, j: nat, req: Request)
    requires ApiInv(m) && Bidding(m, j, req) && m.handlers[j].phase.Running? && m.db.txs[j].pc.Commit?
    ensures Bidding(ApiStep(m, Advance(j)), j, req)
  {
    assert m.db.txs[j].args == ArgsOf(req) by {
      assert HandlerOk(m.db.committed, m.handlers[j], m.db.txs[j]);
    }
    TxStepCommits(m, j, Statement(j));
    CommittedKeys(m.db.committed, m.db.seqs, m.db.txs[j], req);
    ApiKeysStay(m, Advance(j));
  }

  lemma {:induction false} BidGoesOn(m: Api, j: nat, req: Request)
    requires ApiInv(m) && Bidding(m, j, req) && m.handlers[j].phase.Running? && !m.db.txs[j].pc.Commit?
    requires KeyOf(req) !in MemoOf(m) && Payable(m, req)
    ensures Bidding(ApiStep(m, Advance(j)), j, req)
  {
    assert HandlerOk(m.db.committed, m.handlers[j], m.db.txs[j]);
    if !Blocked(m.db, j) {
      StatementSucceeds(m.db, j);
    }
  }

  lemma {:induction false} BidWaits(m: Api, action: ApiAction, j: nat, req: Request)
    requires ApiInv(m) && Bidding(m, j, req) && KeyOf(req) !in MemoOf(m) && Target(action) != Some(j)
    ensures Bidding(ApiStep(m, action), j, req)
  {
    var m' := ApiStep(m, action);
    OtherHandler(m, action, j);
    ApiStepDb(m, action);
    ApiKeysStay(m, action);
    if KeyOf(req) in MemoOf(m') {
      ApiStepInv(m, action);
      EntersReplay(m', j);
    }
  }

  lemma {:induction false} SpentStep(m: Api, action: ApiAction, j: nat, req: Request)
    requires ApiInv(m) && Bidding(m, j, req) && action != Fail(j) && KeyOf(req) in MemoOf(m)
    ensures Bidding(ApiStep(m, action), j, req)
  {
    ApiKeysStay(m, action);
    if Paid(m.handlers[j].phase, m.db.txs[j]) {
      ApiStepDb(m, action);
      if Target(action) != Some(j) {
        OtherHandler(m, action, j);
      }
    } else {
      ReplayStep(m, action, j, req, MemoOf(m)[KeyOf(req)]);
    }
  }

  lemma {:induction false} BidStep(m: Api, action: ApiAction, j: nat, req: Request)
    requires ApiInv(m) && Bidding(m, j, req) && action != Fail(j) && action != DropAck(j)
    requires KeyOf(req) !in MemoOf(m) ==> Payable(m, req)
    ensures Bidding(ApiStep(m, action), j, req)
  {
    if KeyOf(req) in MemoOf(m) {
      SpentStep(m, action, j, req);
    } else if Target(action) != Some(j) {
      BidWaits(m, action, j, req);
    } else if m.handlers[j].phase.Running? {
      if m.db.txs[j].pc.Commit? {
        BidCommits(m, j, req);
      } else {
        BidGoesOn(m, j, req);
      }
    } else {
      assert HandlerOk(m.db.committed, m.handlers[j], m.db.txs[j]);
    }
  }

  lemma {:induction false} BidRun(a: Api, schedule: seq<ApiAction>, j: nat, req: Request)
    requires ApiInitial(a) && Asks(a, j, req) && req.key != "" && KeyOf(req) !in MemoOf(a)
    requires Checked(a.db.committed, req) && CallsSucceed(schedule, j) && PayableUntilSpent(a, schedule, req)
    ensures Bidding(ApiExec(a, schedule), j, req)
  {
    if schedule != [] {
      var before := schedule[..|schedule| - 1];
      BidRun(a, before, j, req);
      ApiExecInv(a, before);
      BidStep(ApiExec(a, before), schedule[|schedule| - 1], j, req);
    }
  }

  // ---------- all of them ----------

  /** If a key is spent in the run, one of the requests that carry it has paid. */
  lemma {:induction false} SomeonePaid(a: Api, schedule: seq<ApiAction>, k: KeyId) returns (w: nat)
    requires ApiInitial(a) && k !in MemoOf(a) && k in MemoOf(ApiExec(a, schedule))
    ensures w < |a.handlers| && w < |ApiExec(a, schedule).db.txs| && Won(ApiExec(a, schedule).db.txs[w])
    ensures a.handlers[w].req.key != "" && KeyOf(a.handlers[w].req) == k
  {
    ApiRunsTheStore(a, schedule);
    var s, store := a.db, StoreSchedule(a, schedule);
    CommitOrderSerializable(s, store);
    KeyRowsOfHistory(s.users, s.committed, History(s, store), k);
    var i :| 0 <= i < |History(s, store)| && Spends(History(s, store)[i], k);
    w := WinnerOfEvent(s, store, i, k);
  }

  lemma {:induction false} OneBidder(a: Api, schedule: seq<ApiAction>, req: Request, j: nat, w: nat)
    requires ApiInitial(a) && req.key != "" && KeyOf(req) !in MemoOf(a) && Checked(a.db.committed, req)
    requires CallsSucceed(schedule, j) && PayableUntilSpent(a, schedule, req)
    requires Asks(a, j, req) && Asks(a, w, req) && Answered(ApiExec(a, schedule), j)
    requires w < |ApiExec(a, schedule).db.txs| && Won(ApiExec(a, schedule).db.txs[w])
    ensures j < |ApiExec(a, schedule).db.txs| && (Won(ApiExec(a, schedule).db.txs[j]) <==> j == w)
    ensures ApiExec(a, schedule).handlers[j].phase == Finished(OK(Json(ApiExec(a, schedule).db.txs[w].result), j != w))
  {
    var m := ApiExec(a, schedule);
    ApiRunsTheStore(a, schedule);
    ApiExecInv(a, schedule);
    BidRun(a, schedule, j, req);
    WinnersRow(a, schedule, w);
    assert HandlerOk(m.db.committed, m.handlers[j], m.db.txs[j]);
    if Won(m.db.txs[j]) {
      OneTransferPerKey(a, schedule, j, w);
    }
  }

  /** One click, one transfer. Of any number of equal requests with one unused key, in any
      interleaving with each other and with any other requests, if their calls do not fail and
      the balances allow the transfer until it is made, then once they are all answered exactly
      one of them has moved the money, and every one has been answered 200 with its result. */
  lemma {:induction false} OneClickOneTransfer(a: Api, schedule: seq<ApiAction>, req: Request, some: nat) returns (w: nat)
    requires ApiInitial(a) && req.key != "" && KeyOf(req) !in MemoOf(a) && Checked(a.db.committed, req)
    requires forall j :: 0 <= j < |a.handlers| && KeyOf(a.handlers[j].req) == KeyOf(req) ==> a.handlers[j].req == req
    requires TheirCallsSucceed(a, schedule, req) && PayableUntilSpent(a, schedule, req)
    requires Asks(a, some, req)
    requires forall j :: Asks(a, j, req) ==> Answered(ApiExec(a, schedule), j)
    ensures Asks(a, w, req) && |ApiExec(a, schedule).db.txs| == |ApiExec(a, schedule).handlers| == |a.handlers|
    ensures forall j :: Asks(a, j, req) ==> (Won(ApiExec(a, schedule).db.txs[j]) <==> j == w)
    ensures forall j :: Asks(a, j, req) ==>
      ApiExec(a, schedule).handlers[j].phase == Finished(OK(Json(ApiExec(a, schedule).db.txs[w].result), j != w))
  {
    var m := ApiExec(a, schedule);
    ApiRunsTheStore(a, schedule);
    BidRun(a, schedule, some, req);
    w := SomeonePaid(a, schedule, KeyOf(req));
    WinnersRow(a, schedule, w);
    forall j | Asks(a, j, req)
      ensures Won(m.db.txs[j]) <==> j == w
      ensures m.handlers[j].phase == Finished(OK(Json(m.db.txs[w].result), j != w))
    {
      OneBidder(a, schedule, req, j, w);
    }
  }

  // ---------- with nothing else going on ----------

  /** The accounts there were at the start hold what they held, or, once the key is spent, what
      they hold after one transfer. */
  ghost predicate MovedOnce(c: Tables, c': Tables, req: Request)
    requires AccountsExist(c, ArgsOf(req).transfer)
  {
    forall id :: id in c.accounts ==>
      && id in c'.accounts
      && c'.accounts[id] == (if KeyOf(req) in c'.keys then Moved(c.accounts, ArgsOf(req).transfer)[id] else c.accounts[id])
  }

  lemma {:induction false} EventMovesOnce(users: set<string>, c: Tables, c': Tables, e: Event, req: Request)
    requires AccountsExist(c, ArgsOf(req).transfer) && req.key != "" && MovedOnce(c, c', req)
    requires Legal(users, c', e) && (e.Transferred? ==> e.args == ArgsOf(req))
    ensures MovedOnce(c, Apply(users, c', e), req)
  {
    ApplyKeys(users, c', e, KeyOf(req));
  }

  lemma {:induction false} AloneStep(c: Tables, m: Api, action: ApiAction, req: Request)
    requires ApiInv(m) && req.key != "" && forall j :: 0 <= j < |m.handlers| ==> m.handlers[j].req == req
    requires AccountsExist(c, ArgsOf(req).transfer) && MovedOnce(c, m.db.committed, req)
    ensures MovedOnce(c, ApiStep(m, action).db.committed, req)
  {
    ApiStepDb(m, action);
    if StoreAction(m, action) != [] {
      var act := StoreAction(m, action)[0];
      StepIsSerial(m.db, act);
      if EventOf(m.db, act) != [] {
        var e := EventOf(m.db, act)[0];
        if e.Transferred? {
          assert HandlerOk(m.db.committed, m.handlers[e.t], m.db.txs[e.t]);
        }
        EventMovesOnce(m.db.users, c, m.db.committed, e, req);
      }
    }
  }

  lemma {:induction false} AloneRun(a: Api, schedule: seq<ApiAction>, req: Request)
    requires ApiInitial(a) && req.key != "" && forall j :: 0 <= j < |a.handlers| ==> a.handlers[j].req == req
    requires KeyOf(req) !in MemoOf(a) && Payable(a, req)
    ensures MovedOnce(a.db.committed, ApiExec(a, schedule).db.committed, req)
  {
    if schedule != [] {
      var before := schedule[..|schedule| - 1];
      AloneRun(a, before, req);
      ApiRunsTheStore(a, before);
      ApiExecInv(a, before);
      AloneStep(a.db.committed, ApiExec(a, before), schedule[|schedule| - 1], req);
    }
  }

  lemma UnmovedIsPayable(a: Api, m: Api, req: Request)
    requires Payable(a, req) && MovedOnce(a.db.committed, m.db.committed, req) && KeyOf(req) !in MemoOf(m)
    ensures Payable(m, req)
  {}

  lemma {:induction false} AloneIsPayable(a: Api, schedule: seq<ApiAction>, req: Request)
    requires ApiInitial(a) && req.key != "" && forall j :: 0 <= j < |a.handlers| ==> a.handlers[j].req == req
    requires KeyOf(req) !in MemoOf(a) && Payable(a, req)
    ensures PayableUntilSpent(a, schedule, req)
  {
    if schedule != [] {
      var before := schedule[..|schedule| - 1];
      AloneIsPayable(a, before, req);
      if KeyOf(req) !in MemoOf(ApiExec(a, before)) {
        AloneRun(a, before, req);
        UnmovedIsPayable(a, ApiExec(a, before), req);
      }
    }
  }

  /** The same for a server that handles nothing but these requests: it is enough that the
      balances allow the transfer at the start, and in the end one amount has left the source
      and reached the target, however many requests there were. */
  lemma {:induction false} ManyClicksOneTransfer(a: Api, schedule: seq<ApiAction>, req: Request) returns (w: nat)
    requires ApiInitial(a) && |a.handlers| > 0 && forall j :: 0 <= j < |a.handlers| ==> a.handlers[j].req == req
    requires req.key != "" && KeyOf(req) !in MemoOf(a) && Checked(a.db.committed, req) && Payable(a, req)
    requires forall j: nat :: j < |a.handlers| ==> CallsSucceed(schedule, j)
    requires forall j :: 0 <= j < |a.handlers| ==> Answered(ApiExec(a, schedule), j)
    ensures w < |a.handlers| && |ApiExec(a, schedule).db.txs| == |ApiExec(a, schedule).handlers| == |a.handlers|
    ensures forall j :: 0 <= j < |a.handlers| ==>
      ApiExec(a, schedule).handlers[j].phase == Finished(OK(Json(ApiExec(a, schedule).db.txs[w].result), j != w))
    ensures var c, c', b := a.db.committed.accounts, ApiExec(a, schedule).db.committed.accounts, req.body;
      && b.from in c && b.to in c && b.from in c' && b.to in c'
      && c'[b.from].balance == c[b.from].balance - b.amount
      && c'[b.to].balance == c[b.to].balance + b.amount
  {
    AloneRun(a, schedule, req);
    AloneIsPayable(a, schedule, req);
    w := OneClickOneTransfer(a, schedule, req, 0);
    assert Asks(a, w, req);
    WinnersRow(a, schedule, w);
    forall j | 0 <= j < |a.handlers|
      ensures ApiExec(a, schedule).handlers[j].phase == Finished(OK(Json(ApiExec(a, schedule).db.txs[w].result), j != w))
    {
      assert Asks(a, j, req);
    }
  }
}
