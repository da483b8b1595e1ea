/** What a client that retries with an Idempotency-Key can rely on. */
module Retries {
  import opened Schema
  import opened TransferStore
  import opened StoreInvariant
  import opened Serial
  import opened Serializability
  import opened Ledger
  import opened Idempotency
  import opened Fingerprint
  import opened TransferApi
  import opened ApiInvariant
  import opened MemoTable

  // ---------- answers and the stored row ----------

  /** A keyed answer that speaks of the stored row speaks the truth about it. */
  ghost predicate Truthful(memo: Memo, h: Handler) {
    h.phase.Finished? && h.req.key != "" ==>
      var k, r := KeyOf(h.req), h.phase.response;
      && (r.OK? ==> k in memo && memo[k] == KeyRow(FingerprintOf(h.req.body), r.body) && r.body.Json?)
      && (r.Conflict? ==> r.cause == DifferentTransfer && k in memo && memo[k].requestHash != FingerprintOf(h.req.body))
  }

  lemma TruthfulFrame(c: Tables, c': Tables, h: Handler)
    requires Truthful(c.keys, h) && KeysStay(c, c')
    ensures Truthful(c'.keys, h)
  {}

  lemma ServedTruthfully(memo: Memo, req: Request, effect: Effect)
    requires req.key != "" && (effect.Refuse? ==> Refusal(effect.response))
    ensures var (memo', r) := Serve(memo, req, effect);
      && (r.OK? ==> KeyOf(req) in memo' && memo'[KeyOf(req)] == KeyRow(FingerprintOf(req.body), r.body))
      && (r.Conflict? ==>
            && r.cause == DifferentTransfer
            && KeyOf(req) in memo' && memo'[KeyOf(req)].requestHash != FingerprintOf(req.body))
  {}

  lemma {:induction false} NewAnswerIsTruthful(a: Api, action: ApiAction)
    requires ApiInv(a) && StepServes(a, action) && OpsOf(a, action) != []
    ensures var i := OpsOf(a, action)[0].i;
      i < |ApiStep(a, action).handlers| && Truthful(MemoOf(ApiStep(a, action)), ApiStep(a, action).handlers[i])
  {
    var a', op := ApiStep(a, action), OpsOf(a, action)[0];
    assert Inv(a'.db) by {
      ApiStepInv(a, action);
    }
    ApiStepDb(a, action);
    OpsOfInRange(a, action);
    var h := a'.handlers[op.i];
    if h.req.key != "" {
      ServedTruthfully(MemoOf(a), h.req, op.effect);
      if h.phase.response.OK? {
        assert Completed(a'.db.committed, KeyOf(h.req));
      }
    }
  }

  lemma {:induction false} ApiKeysStay(a: Api, action: ApiAction)
    requires ApiInv(a)
    ensures KeysStay(a.db.committed, ApiStep(a, action).db.committed)
    ensures SameColumns(a.db.committed, ApiStep(a, action).db.committed)
  {
    ApiStepDb(a, action);
    if StoreAction(a, action) != [] {
      StepKeepsKeys(a.db, StoreAction(a, action)[0]);
      StepKeepsColumns(a.db, StoreAction(a, action)[0]);
    }
  }

  /** In every reachable state, each keyed 200 carries the body that is stored under its key for
      exactly its request, each 409 is for a different request, and "still being processed" is
      never answered. */
  lemma {:induction false} AnswersAreTruthful(a: Api, schedule: seq<ApiAction>, i: nat)
    requires ApiInitial(a) && i < |a.handlers|
    ensures i < |ApiExec(a, schedule).handlers|
    ensures Truthful(MemoOf(ApiExec(a, schedule)), ApiExec(a, schedule).handlers[i])
  {
    ApiRunsTheStore(a, schedule);
    if schedule != [] {
      var before, last := schedule[..|schedule| - 1], schedule[|schedule| - 1];
      var m := ApiExec(a, before);
      AnswersAreTruthful(a, before, i);
      ApiExecInv(a, before);
      EveryStepServes(m, last);
      ApiKeysStay(m, last);
      if OpsOf(m, last) != [] && OpsOf(m, last)[0].i == i {
        NewAnswerIsTruthful(m, last);
      } else {
        TruthfulFrame(m.db.committed, ApiExec(a, schedule).db.committed, m.handlers[i]);
      }
    }
  }

  /** A request that was refused its key always finds the row: the replay it is about to make,
      a separate read after its transaction has ended, gives the stored response or says that
      the key was used for a different transfer, and nothing else. */
  lemma {:induction false} ReplayFindsTheRow(a: Api, schedule: seq<ApiAction>, i: nat)
    requires ApiInitial(a) && i < |ApiExec(a, schedule).handlers|
    requires ApiExec(a, schedule).handlers[i].phase.Replaying?
    ensures var m := ApiExec(a, schedule);
      var req := m.handlers[i].req;
      && KeyOf(req) in MemoOf(m)
      && ReplayStored(m.db.committed, req) ==
           if MemoOf(m)[KeyOf(req)].requestHash == FingerprintOf(req.body) then OK(MemoOf(m)[KeyOf(req)].responseBody, true)
           else Conflict(DifferentTransfer)
  {
    ApiExecInv(a, schedule);
    var m := ApiExec(a, schedule);
    assert HandlerOk(m.db.committed, m.handlers[i], m.db.txs[i]);
    assert Completed(m.db.committed, KeyOf(m.handlers[i].req));
  }

  /** Two requests of one user with one key that were both answered 200 asked for the same
      transfer and got the same body. */
  lemma SameKeySameAnswer(a: Api, schedule: seq<ApiAction>, i: nat, j: nat)
    requires ApiInitial(a) && i < |a.handlers| && j < |a.handlers|
    requires KeyOf(a.handlers[i].req) == KeyOf(a.handlers[j].req) && a.handlers[i].req.key != ""
    requires Answered(ApiExec(a, schedule), i) && ApiExec(a, schedule).handlers[i].phase.response.OK?
    requires Answered(ApiExec(a, schedule), j)
    ensures var r, r' := ApiExec(a, schedule).handlers[i].phase.response, ApiExec(a, schedule).handlers[j].phase.response;
      && (r'.OK? ==> a.handlers[i].req.body == a.handlers[j].req.body && r'.body == r.body)
      && (r'.Conflict? ==> a.handlers[i].req.body != a.handlers[j].req.body)
  {
    AnswersAreTruthful(a, schedule, i);
    AnswersAreTruthful(a, schedule, j);
    ApiRunsTheStore(a, schedule);
    SameHashSameRequest(a.handlers[i].req.body, a.handlers[j].req.body);
  }

  /** What a committed transfer has left in the tables, in the terms of its request: a transfer
      row, and an entry on each of its two accounts. Its result carries exactly these rows. */
  lemma {:induction false} CommittedMeansBooked(a: Api, schedule: seq<ApiAction>, i: nat)
    requires ApiInitial(a) && i < |a.handlers| && i < |ApiExec(a, schedule).db.txs| && Won(ApiExec(a, schedule).db.txs[i])
    ensures var b, r, c := a.handlers[i].req.body, ApiExec(a, schedule).db.txs[i].result, ApiExec(a, schedule).db.committed;
      && r.transfer == Transfer(r.transfer.id, b.from, b.to, b.amount)
      && r.fromEntry == Entry(r.fromEntry.id, b.from, -(b.amount as int))
      && r.toEntry == Entry(r.toEntry.id, b.to, b.amount)
      && r.transfer.id in c.transfers && c.transfers[r.transfer.id] == r.transfer
      && r.fromEntry.id in c.entries && c.entries[r.fromEntry.id] == r.fromEntry
      && r.toEntry.id in c.entries && c.entries[r.toEntry.id] == r.toEntry
  {
    ApiRunsTheStore(a, schedule);
    ChecksStayTrue(a, schedule, i);
    CommittedRows(a.db, StoreSchedule(a, schedule), i);
  }

  /** A first 200 carries the result of its own transaction, which has committed. */
  lemma {:induction false} FirstAnswerIsTheResult(a: Api, schedule: seq<ApiAction>, i: nat, body: Body)
    requires ApiInitial(a) && i < |ApiExec(a, schedule).handlers|
    requires ApiExec(a, schedule).handlers[i].phase == Finished(OK(body, false))
    ensures i < |ApiExec(a, schedule).db.txs| && Won(ApiExec(a, schedule).db.txs[i])
    ensures body == Json(ApiExec(a, schedule).db.txs[i].result)
  {
    ApiExecInv(a, schedule);
    var m := ApiExec(a, schedule);
    assert HandlerOk(m.db.committed, m.handlers[i], m.db.txs[i]);
  }

  /** The money moves once: of all the requests of one user with one key, at most one has
      committed a transfer, whatever the others were answered. */
  lemma OneTransferPerKey(a: Api, schedule: seq<ApiAction>, i: nat, j: nat)
    requires ApiInitial(a) && i < |a.handlers| && j < |a.handlers|
    requires KeyOf(a.handlers[i].req) == KeyOf(a.handlers[j].req) && a.handlers[i].req.key != ""
    requires i < |ApiExec(a, schedule).db.txs| && j < |ApiExec(a, schedule).db.txs|
    requires Won(ApiExec(a, schedule).db.txs[i]) && Won(ApiExec(a, schedule).db.txs[j])
    ensures i == j
  {
    ApiRunsTheStore(a, schedule);
    var s, store := a.db, StoreSchedule(a, schedule);
    var m, h, k := Exec(s, store), History(s, store), KeyOf(a.handlers[i].req);
    HistoryIsTheCommitted(s, store, i);
    HistoryIsTheCommitted(s, store, j);
    var x :| 0 <= x < |h| && h[x] == Transferred(i, s.txs[i].args, m.txs[i].result);
    var y :| 0 <= y < |h| && h[y] == Transferred(j, s.txs[j].args, m.txs[j].result);
    assert Spends(h[x], k) && Spends(h[y], k);
    AtMostOncePerKey(s, store, x, y, k);
  }

  // ---------- requests that find their key spent ----------

  /** The replayed response: the stored body for the same request, a conflict for any other. */
  function Replayed(row: KeyRow, req: Request): Response {
    if row.requestHash == FingerprintOf(req.body) then OK(row.responseBody, true) else Conflict(DifferentTransfer)
  }

  /** j's key is spent and it is on its way to the replay. */
  ghost predicate OnReplay(m: Api, j: nat, req: Request, row: KeyRow) {
    && j < |m.handlers| == |m.db.txs| && m.handlers[j].req == req && req.key != ""
    && Checked(m.db.committed, req)
    && KeyOf(req) in MemoOf(m) && MemoOf(m)[KeyOf(req)] == row && row.responseBody.Json?
    && match m.handlers[j].phase
       case Running =>
         var pc := m.db.txs[j].pc;
         pc.Begin? || pc.Claim? || pc == RollBack(UniqueViolation)
       case Finished(r) => r == Replayed(row, req)
       case _ => true
  }

  /** A transaction has come past its claim only if its key is not yet spent. */
  lemma ClaimedIsUnspent(c: Tables, tx: Tx)
    requires KeyShape(c, tx) && HasClaimed(tx.pc)
    ensures Unclaimed(c.keys, tx.args.claim)
  {
    if tx.args.claim.Some? {
      assert tx.args.claim.value.id in tx.writes.keys;
    }
  }

  /** An unanswered request whose key is spent is on its way to the replay, unless it has failed
      for a reason of its own. */
  lemma {:induction false} EntersReplay(m: Api, j: nat)
    requires ApiInv(m) && j < |m.handlers| && !Answered(m, j) && m.handlers[j].req.key != ""
    requires Checked(m.db.committed, m.handlers[j].req) && KeyOf(m.handlers[j].req) in MemoOf(m)
    requires HasFailed(m.db.txs[j].pc) ==> Refused(m.db.txs[j].pc)
    ensures OnReplay(m, j, m.handlers[j].req, MemoOf(m)[KeyOf(m.handlers[j].req)])
  {
    assert HandlerOk(m.db.committed, m.handlers[j], m.db.txs[j]);
    assert !HasClaimed(m.db.txs[j].pc) by {
      assert Shape(m.db.committed, m.db.seqs, m.db.txs[j]);
      if HasClaimed(m.db.txs[j].pc) {
        ClaimedIsUnspent(m.db.committed, m.db.txs[j]);
      }
    }
    assert Completed(m.db.committed, KeyOf(m.handlers[j].req));
  }

  lemma {:induction false} ReplayFrame(m: Api, action: ApiAction, j: nat, req: Request, row: KeyRow)
    requires ApiInv(m) && OnReplay(m, j, req, row) && Target(action) != Some(j)
    ensures OnReplay(ApiStep(m, action), j, req, row)
  {
    ApiStepDb(m, action);
    ApiKeysStay(m, action);
    OtherHandler(m, action, j);
  }

  lemma {:induction false} ReplayRuns(m: Api, j: nat, req: Request, row: KeyRow)
    requires ApiInv(m) && OnReplay(m, j, req, row) && m.handlers[j].phase.Running?
    ensures OnReplay(TxStep(m, j, Statement(j)), j, req, row)
  {
    assert HandlerOk(m.db.committed, m.handlers[j], m.db.txs[j]);
  }

  lemma {:induction false} ReplayAdvances(m: Api, j: nat, req: Request, row: KeyRow)
    requires ApiInv(m) && OnReplay(m, j, req, row)
    ensures OnReplay(ApiStep(m, Advance(j)), j, req, row)
  {
    if m.handlers[j].phase.Running? {
      ReplayRuns(m, j, req, row);
    }
  }

  lemma {:induction false} ReplayStep(m: Api, action: ApiAction, j: nat, req: Request, row: KeyRow)
    requires ApiInv(m) && OnReplay(m, j, req, row) && action != Fail(j)
    ensures OnReplay(ApiStep(m, action), j, req, row)
  {
    if Target(action) != Some(j) {
      ReplayFrame(m, action, j, req, row);
    } else if action.Advance? {
      ReplayAdvances(m, j, req, row);
    } else {
      assert action == DropAck(j);
      if m.handlers[j].phase.Running? {
        assert Step(m.db, LoseAck(j)) == m.db;
        assert m.handlers[j := m.handlers[j]] == m.handlers;
      }
    }
  }

  /** A request whose key is spent is never made to wait. */
  lemma ReplayDoesNotWait(m: Api, j: nat, req: Request, row: KeyRow)
    requires ApiInv(m) && OnReplay(m, j, req, row) && m.handlers[j].phase.Running?
    ensures !Blocked(m.db, j)
  {
    assert HandlerOk(m.db.committed, m.handlers[j], m.db.txs[j]);
    forall u: nat | u < |m.db.txs| ensures !WaitsFor(m.db, j, u) {
      assert KeyShape(m.db.committed, m.db.txs[u]) by {
        assert Shape(m.db.committed, m.db.seqs, m.db.txs[u]);
      }
    }
  }

  lemma {:induction false} ReplayRun(a: Api, first: seq<ApiAction>, rest: seq<ApiAction>, j: nat, req: Request, row: KeyRow)
    requires ApiInitial(a) && OnReplay(ApiExec(a, first), j, req, row)
    requires forall x :: 0 <= x < |rest| ==> rest[x] != Fail(j)
    ensures OnReplay(ApiExec(a, first + rest), j, req, row)
  {
    if rest == [] {
      assert first + rest == first;
    } else {
      var n := |rest| - 1;
      ReplayRun(a, first, rest[..n], j, req, row);
      ApiExecInv(a, first + rest[..n]);
      ReplayStep(ApiExec(a, first + rest[..n]), rest[n], j, req, row);
      ApiExecLast(a, first, rest);
    }
  }

  /** A spent key answers for itself. Take any moment at which a key is committed and a request
      with that key, which would pass its checks, is neither answered nor failed. If no later
      call of its own fails for an outside reason, it never waits for a lock, and its answer can
      only be the stored body, if it is the request that the key was spent on, and "used for a
      different transfer" if it is not. */
  lemma {:induction false} SpentKeyIsReplayed(a: Api, first: seq<ApiAction>, rest: seq<ApiAction>, j: nat)
    requires ApiInitial(a) && j < |ApiExec(a, first).handlers| && j < |ApiExec(a, first).db.txs|
    requires !Answered(ApiExec(a, first), j) && ApiExec(a, first).handlers[j].req.key != ""
    requires HasFailed(ApiExec(a, first).db.txs[j].pc) ==> Refused(ApiExec(a, first).db.txs[j].pc)
    requires Checked(ApiExec(a, first).db.committed, ApiExec(a, first).handlers[j].req)
    requires KeyOf(ApiExec(a, first).handlers[j].req) in MemoOf(ApiExec(a, first))
    requires forall x :: 0 <= x < |rest| ==> rest[x] != Fail(j)
    ensures j < |ApiExec(a, first + rest).handlers|
    ensures Answered(ApiExec(a, first + rest), j) ==>
      ApiExec(a, first + rest).handlers[j].phase.response ==
        Replayed(MemoOf(ApiExec(a, first))[KeyOf(ApiExec(a, first).handlers[j].req)], ApiExec(a, first).handlers[j].req)
    ensures ApiExec(a, first + rest).handlers[j].phase.Running? ==> !Blocked(ApiExec(a, first + rest).db, j)
  {
    var m, m' := ApiExec(a, first), ApiExec(a, first + rest);
    var req := m.handlers[j].req;
    var row := MemoOf(m)[KeyOf(req)];
    ApiExecInv(a, first);
    EntersReplay(m, j);
    ReplayRun(a, first, rest, j, req, row);
    ApiExecInv(a, first + rest);
    if m'.handlers[j].phase.Running? {
      ReplayDoesNotWait(m', j, req, row);
    }
  }

  // ---------- a retry after the first transfer ----------

  /** The row that a committed keyed transfer leaves. */
  lemma {:induction false} WinnersRow(a: Api, schedule: seq<ApiAction>, i: nat)
    requires ApiInitial(a) && i < |a.handlers| && a.handlers[i].req.key != ""
    requires i < |ApiExec(a, schedule).db.txs| && Won(ApiExec(a, schedule).db.txs[i])
    ensures var req, memo := a.handlers[i].req, MemoOf(ApiExec(a, schedule));
      && KeyOf(req) in memo
      && memo[KeyOf(req)] == KeyRow(FingerprintOf(req.body), Json(ApiExec(a, schedule).db.txs[i].result))
  {
    ApiRunsTheStore(a, schedule);
    var s, store, k := a.db, StoreSchedule(a, schedule), KeyOf(a.handlers[i].req);
    var h := History(s, store);
    HistoryIsTheCommitted(s, store, i);
    CommitOrderSerializable(s, store);
    KeyRowsOfHistory(s.users, s.committed, h, k);
    var x :| 0 <= x < |h| && h[x] == Transferred(i, s.txs[i].args, Exec(s, store).txs[i].result);
    assert Spends(h[x], k);
  }

  /** The retry gets the original response. Once the transfer of request i is committed, whatever
      i itself has been or will be answered, an equal request j that is under way or comes in
      later, has not failed, and none of whose further calls fails for an outside reason, never
      waits for a lock and is answered, when it is, with i's result, as a replay. */
  lemma {:induction false} LaterRetryIsReplayed(a: Api, first: seq<ApiAction>, rest: seq<ApiAction>, i: nat, j: nat)
    requires ApiInitial(a) && i < |a.handlers| && j < |a.handlers|
    requires a.handlers[i].req == a.handlers[j].req && a.handlers[i].req.key != ""
    requires i < |ApiExec(a, first).db.txs| && j < |ApiExec(a, first).db.txs| && Won(ApiExec(a, first).db.txs[i])
    requires !Answered(ApiExec(a, first), j)
    requires HasFailed(ApiExec(a, first).db.txs[j].pc) ==> Refused(ApiExec(a, first).db.txs[j].pc)
    requires forall x :: 0 <= x < |rest| ==> rest[x] != Fail(j)
    ensures j < |ApiExec(a, first + rest).handlers|
    ensures Answered(ApiExec(a, first + rest), j) ==>
      ApiExec(a, first + rest).handlers[j].phase.response == OK(Json(ApiExec(a, first).db.txs[i].result), true)
    ensures ApiExec(a, first + rest).handlers[j].phase.Running? ==> !Blocked(ApiExec(a, first + rest).db, j)
  {
    ApiRunsTheStore(a, first);
    WinnersRow(a, first, i);
    ChecksStayTrue(a, first, i);
    SpentKeyIsReplayed(a, first, rest, j);
  }

  /** And once the transfer of request i is committed, a request with the same key for a different
      transfer, which would pass its checks, can only be answered 409. */
  lemma {:induction false} OtherRequestConflicts(a: Api, first: seq<ApiAction>, rest: seq<ApiAction>, i: nat, j: nat)
    requires ApiInitial(a) && i < |a.handlers| && j < |a.handlers| && a.handlers[i].req.key != ""
    requires KeyOf(a.handlers[i].req) == KeyOf(a.handlers[j].req) && a.handlers[i].req.body != a.handlers[j].req.body
    requires i < |ApiExec(a, first).db.txs| && j < |ApiExec(a, first).db.txs| && Won(ApiExec(a, first).db.txs[i])
    requires !Answered(ApiExec(a, first), j) && Checked(ApiExec(a, first).db.committed, a.handlers[j].req)
    requires HasFailed(ApiExec(a, first).db.txs[j].pc) ==> Refused(ApiExec(a, first).db.txs[j].pc)
    requires forall x :: 0 <= x < |rest| ==> rest[x] != Fail(j)
    ensures Answered(ApiExec(a, first + rest), j) ==>
      ApiExec(a, first + rest).handlers[j].phase.response == Conflict(DifferentTransfer)
  {
    ApiRunsTheStore(a, first);
    WinnersRow(a, first, i);
    SpentKeyIsReplayed(a, first, rest, j);
    SameHashSameRequest(a.handlers[i].req.body, a.handlers[j].req.body);
  }
}
