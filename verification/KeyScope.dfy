/** An idempotency key is scoped to its owner. */
module KeyScope {
  import opened Schema
  import opened TransferStore
  import opened Idempotency
  import opened Fingerprint
  import opened TransferApi
  import opened ApiInvariant
  import opened MemoTable
  import opened Refusals
  import opened Retries
  import opened ConcurrentRetries

  /** A keyed transfer that commits leaves its row under its user and its key. */
  lemma {:induction false} CommittedUnderItsOwner(a: Api, schedule: seq<ApiAction>, i: nat)
    requires ApiInitial(a) && i < |a.handlers| && a.handlers[i].req.key != ""
    requires i < |ApiExec(a, schedule).db.txs| && Won(ApiExec(a, schedule).db.txs[i])
    ensures var req, keys := a.handlers[i].req, ApiExec(a, schedule).db.committed.keys;
      && KeyId(req.user, req.key) in keys
      && keys[KeyId(req.user, req.key)] == KeyRow(FingerprintOf(req.body), Json(ApiExec(a, schedule).db.txs[i].result))
  {
    WinnersRow(a, schedule, i);
  }

  /** And there is no other way to a row: each one was there at the start, or was left by a
      request of that very user with that very key. */
  lemma {:induction false} RowsHaveOwners(a: Api, schedule: seq<ApiAction>, owner: string, key: string) returns (w: nat)
    requires ApiInitial(a) && KeyId(owner, key) in ApiExec(a, schedule).db.committed.keys
    ensures KeyId(owner, key) in a.db.committed.keys ||
      (&& w < |a.handlers| && a.handlers[w].req.user == owner && a.handlers[w].req.key == key
       && w < |ApiExec(a, schedule).db.txs| && Won(ApiExec(a, schedule).db.txs[w]))
  {
    w := 0;
    if KeyId(owner, key) !in a.db.committed.keys {
      w := SomeonePaid(a, schedule, KeyId(owner, key));
    }
  }

  /** The request was told that its key is spent, or is about to be. */
  predicate ToldSpent(m: Api, i: nat)
    requires i < |m.handlers| && i < |m.db.txs|
  {
    || Refused(m.db.txs[i].pc)
    || (m.handlers[i].phase.Finished? &&
          match m.handlers[i].phase.response
          case OK(_, replayed) => replayed
          case Conflict(_) => true
          case _ => false)
  }

  /** Only its own key holds a request back: it meets unique_violation, or is answered with a
      replay or a conflict, only if a row is committed under its own user and key, and that row
      was there at the start or a request of the same user with the same key left it. */
  lemma {:induction false} OnlyItsOwnKeyRefuses(a: Api, schedule: seq<ApiAction>, i: nat) returns (w: nat)
    requires ApiInitial(a) && i < |a.handlers|
    requires i < |ApiExec(a, schedule).handlers| && i < |ApiExec(a, schedule).db.txs| && ToldSpent(ApiExec(a, schedule), i)
    ensures a.handlers[i].req.key != ""
    ensures KeyId(a.handlers[i].req.user, a.handlers[i].req.key) in ApiExec(a, schedule).db.committed.keys
    ensures KeyId(a.handlers[i].req.user, a.handlers[i].req.key) in a.db.committed.keys ||
      (&& w < |a.handlers| && a.handlers[w].req.user == a.handlers[i].req.user && a.handlers[w].req.key == a.handlers[i].req.key
       && w < |ApiExec(a, schedule).db.txs| && Won(ApiExec(a, schedule).db.txs[w]))
  {
    ApiExecInv(a, schedule);
    ApiRunsTheStore(a, schedule);
    var m := ApiExec(a, schedule);
    assert HandlerOk(m.db.committed, m.handlers[i], m.db.txs[i]);
    w := RowsHaveOwners(a, schedule, a.handlers[i].req.user, a.handlers[i].req.key);
  }

  /** Nobody else in the run has both this user and this key, and nobody had before. */
  ghost predicate FreshForItsOwner(a: Api, j: nat)
    requires j < |a.handlers|
  {
    && KeyId(a.handlers[j].req.user, a.handlers[j].req.key) !in a.db.committed.keys
    && forall i :: 0 <= i < |a.handlers| && i != j ==>
         a.handlers[i].req.user != a.handlers[j].req.user || a.handlers[i].req.key != a.handlers[j].req.key
  }

  /** Another user's key does not bind: whatever keys other users have spent, the same text
      among them, a request with a key that is new to its own user is never told that it is
      spent. */
  lemma {:induction false} OthersKeysDoNotBind(a: Api, schedule: seq<ApiAction>, j: nat)
    requires ApiInitial(a) && j < |a.handlers| && FreshForItsOwner(a, j)
    requires j < |ApiExec(a, schedule).handlers| && j < |ApiExec(a, schedule).db.txs|
    ensures !ToldSpent(ApiExec(a, schedule), j)
  {
    ApiExecInv(a, schedule);
    var m := ApiExec(a, schedule);
    assert HandlerOk(m.db.committed, m.handlers[j], m.db.txs[j]);
    if ToldSpent(m, j) {
      var w := OnlyItsOwnKeyRefuses(a, schedule, j);
    }
  }

  /** So it moves its money: if its calls do not fail and the balances allow it until it is done,
      it can only be answered 200, with the result of its own transfer. */
  lemma {:induction false} NewKeyOfItsOwnerPays(a: Api, schedule: seq<ApiAction>, j: nat)
    requires ApiInitial(a) && j < |a.handlers| && FreshForItsOwner(a, j) && a.handlers[j].req.key != ""
    requires Checked(a.db.committed, a.handlers[j].req) && CallsSucceed(schedule, j)
    requires PayableUntilSpent(a, schedule, a.handlers[j].req) && Answered(ApiExec(a, schedule), j)
    ensures j < |ApiExec(a, schedule).db.txs| && Won(ApiExec(a, schedule).db.txs[j])
    ensures ApiExec(a, schedule).handlers[j].phase == Finished(OK(Json(ApiExec(a, schedule).db.txs[j].result), false))
  {
    var req := a.handlers[j].req;
    assert forall i :: Asks(a, i, req) ==> i == j;
    var w := OneClickOneTransfer(a, schedule, req, j);
    assert Asks(a, j, req) && Asks(a, w, req);
  }
}
