/** The server as the program has it: handlers that read the store, run transactions on it and
    write one response each. */
module TransferServer {
  import opened Schema
  import opened SqlStore
  import opened TransferStore
  import opened Fingerprint
  import opened Ledger
  import opened TransferApi
  import opened ApiInvariant
  import opened MemoTable
  import opened Refusals
  import opened Retries

  lemma {:induction false} RunKeepsTheBooks(a: Api, schedule: seq<ApiAction>)
    requires ApiInitial(a)
    ensures forall currency: string, n: nat :: ApiExec(a, schedule).db.seqs.account <= n ==>
      CurrencyTotal(ApiExec(a, schedule).db.committed.accounts, currency, n) ==
        CurrencyTotal(a.db.committed.accounts, currency, n)
    ensures |ApiExec(a, schedule).handlers| == |a.handlers|
    ensures forall i :: 0 <= i < |ApiExec(a, schedule).handlers| ==>
      Truthful(MemoOf(ApiExec(a, schedule)), ApiExec(a, schedule).handlers[i])
  {
    ApiRunsTheStore(a, schedule);
    forall currency: string, n: nat | ApiExec(a, schedule).db.seqs.account <= n
      ensures CurrencyTotal(ApiExec(a, schedule).db.committed.accounts, currency, n) ==
        CurrencyTotal(a.db.committed.accounts, currency, n)
    {
      MoneyIsConserved(a, schedule, currency, n);
    }
    forall i | 0 <= i < |ApiExec(a, schedule).handlers|
      ensures Truthful(MemoOf(ApiExec(a, schedule)), ApiExec(a, schedule).handlers[i])
    {
      AnswersAreTruthful(a, schedule, i);
    }
  }

  class Server {
    const store: SQLStore
    var handlers: seq<Handler>

    function State(): Api
      reads this, store
    {
      Api(store.State(), handlers)
    }

    constructor (store: SQLStore, handlers: seq<Handler>)
      ensures this.store == store && this.handlers == handlers
    {
      this.store, this.handlers := store, handlers;
    }

    /** Handler i goes on to another phase; for Finished, this writes its response. */
    method Enter(i: nat, phase: Phase)
      requires i < |handlers|
      modifies this
      ensures handlers == old(handlers)[i := old(handlers)[i].(phase := phase)]
    {
      handlers := handlers[i := handlers[i].(phase := phase)];
    }

    /** validAccount: GetAccount, then the currency; the response it writes, if it refuses. */
    method CheckAccount(id: int, currency: string) returns (refusal: Option<Response>)
      ensures refusal == ValidAccount(store.Tables(), id, currency)
    {
      if id !in store.accounts {
        return Some(NotFound);
      }
      if store.accounts[id].currency != currency {
        return Some(BadRequest(CurrencyMismatch));
      }
      return None;
    }

    /** createTransfer up to the read of the source account. */
    method BeginTransfer(i: nat)
      requires i < |handlers|
      modifies this
      ensures State() == WithPhase(old(State()), i, CheckFrom(store.Tables(), old(handlers)[i].req))
      ensures forall r :: handlers[i].phase == Finished(r) <==> FromReason(store.accounts, old(handlers)[i].req, r)
    {
      var req := handlers[i].req;
      if !Bound(req.body) {
        Enter(i, Finished(BadRequest(Malformed)));
        return;
      }
      if req.body.from == req.body.to {
        Enter(i, Finished(BadRequest(SameAccount)));
        return;
      }
      var refusal := CheckAccount(req.body.from, req.body.currency);
      if refusal.Some? {
        Enter(i, Finished(refusal.value));
      } else if store.accounts[req.body.from].owner != req.user {
        Enter(i, Finished(Unauthorized));
      } else {
        Enter(i, ReadTo);
      }
    }

    /** The read of the target account, and the length of the key. */
    method CheckTarget(i: nat)
      requires i < |handlers|
      modifies this
      ensures State() == WithPhase(old(State()), i, CheckTo(store.Tables(), old(handlers)[i].req))
      ensures forall r :: handlers[i].phase == Finished(r) <==> ToReason(store.accounts, old(handlers)[i].req, r)
    {
      var req := handlers[i].req;
      var refusal := CheckAccount(req.body.to, req.body.currency);
      if refusal.Some? {
        Enter(i, Finished(refusal.value));
      } else if req.key != "" && |req.key| > MAX_KEY_LENGTH {
        Enter(i, Finished(BadRequest(KeyTooLong)));
      } else {
        Enter(i, Running);
      }
    }

    /** replayIdempotentTransfer. */
    method ReplayIdempotentTransfer(i: nat)
      requires i < |handlers|
      modifies this
      ensures State() == WithPhase(old(State()), i, Finished(ReplayStored(store.Tables(), old(handlers)[i].req)))
      ensures var req := old(handlers)[i].req;
        var id := KeyId(req.user, req.key);
        handlers[i].phase.Finished? && handlers[i].phase.response.OK? <==>
          id in store.keys && store.keys[id].requestHash == FingerprintOf(req.body) && store.keys[id].responseBody != Empty
    {
      var req := handlers[i].req;
      var id := KeyId(req.user, req.key);
      if id !in store.keys {
        Enter(i, Finished(InternalError));
        return;
      }
      var stored := store.keys[id];
      if stored.requestHash != FingerprintOf(req.body) {
        Enter(i, Finished(Conflict(DifferentTransfer)));
      } else if stored.responseBody.Empty? {
        Enter(i, Finished(Conflict(StillProcessing)));
      } else {
        Enter(i, Finished(OK(stored.responseBody, true)));
      }
    }

    /** What the handler does with its transaction once a call of it has returned. */
    method AfterCall(i: nat)
      requires i < |handlers| && i < |store.txs|
      modifies this
      ensures State() == WithPhase(old(State()), i, AfterTx(old(handlers)[i].req, store.txs[i]))
    {
      var req, tx := handlers[i].req, store.txs[i];
      if !tx.pc.Done? {
        Enter(i, Running);
      } else if tx.pc.outcome.Committed? {
        Enter(i, Finished(if tx.pc.outcome.acknowledged then OK(Json(tx.result), false) else InternalError));
      } else if !tx.pc.outcome.rolledBack {
        Enter(i, Finished(InternalError));
      } else if req.key != "" && tx.pc.outcome.error == UniqueViolation {
        Enter(i, Replaying);
      } else if tx.pc.outcome.error == BalanceCheckViolation {
        Enter(i, Finished(BadRequest(InsufficientBalance)));
      } else {
        Enter(i, Finished(InternalError));
      }
    }

    /** Handler i makes its next call. */
    method Proceed(i: nat)
      requires i < |handlers| == |store.txs|
      modifies this, store
      ensures State() == AdvanceStep(old(State()), i)
    {
      match handlers[i].phase
      case ReadFrom => BeginTransfer(i);
      case ReadTo => CheckTarget(i);
      case Running =>
        store.Next(i);
        AfterCall(i);
      case Replaying => ReplayIdempotentTransfer(i);
      case Finished(_) =>
    }

    /** Handler i's next call fails. */
    method FailCall(i: nat)
      requires i < |handlers| == |store.txs|
      modifies this, store
      ensures State() == FailStep(old(State()), i)
    {
      var req := handlers[i].req;
      match handlers[i].phase
      case ReadFrom =>
        if Bound(req.body) && req.body.from != req.body.to {
          Enter(i, Finished(InternalError));
        } else {
          BeginTransfer(i);
        }
      case Running =>
        store.Break(i);
        AfterCall(i);
      case Finished(_) =>
      case _ => Enter(i, Finished(InternalError));
    }

    /** Handler i's COMMIT takes effect, but its reply is lost. */
    method DropReply(i: nat)
      requires i < |handlers| == |store.txs| && handlers[i].phase.Running?
      modifies this, store
      ensures State() == TxStep(old(State()), i, LoseAck(i))
    {
      if store.txs[i].pc.Commit? {
        store.CommitPending(i, false);
      }
      AfterCall(i);
    }

    method Take(action: ApiAction)
      requires |handlers| == |store.txs|
      modifies this, store
      ensures State() == ApiStep(old(State()), action)
      ensures |handlers| == |store.txs|
    {
      match action
      case Advance(i) => if i < |handlers| { Proceed(i); }
      case Fail(i) => if i < |handlers| { FailCall(i); }
      case DropAck(i) => if i < |handlers| && handlers[i].phase.Running? { DropReply(i); }
      case Open(user, currency) =>
        if SupportedCurrency(currency) {
          var _ := store.CreateAccount(user, currency);
        }
    }

    /** Any interleaving of any requests. The money held in each currency stays what it was, and
        every keyed answer that speaks of a stored response speaks the truth about it. */
    method Run(schedule: seq<ApiAction>)
      requires |handlers| == |store.txs|
      modifies this, store
      ensures State() == ApiExec(old(State()), schedule)
      ensures ApiInitial(old(State())) ==>
        forall currency: string, n: nat :: store.nextAccount <= n ==>
          CurrencyTotal(store.accounts, currency, n) == CurrencyTotal(old(store.accounts), currency, n)
      ensures ApiInitial(old(State())) ==>
        |handlers| == |old(handlers)| && forall i :: 0 <= i < |handlers| ==> Truthful(store.keys, handlers[i])
    {
      var n := 0;
      while n < |schedule|
        invariant 0 <= n <= |schedule|
        invariant |handlers| == |store.txs|
        invariant State() == ApiExec(old(State()), schedule[..n])
      {
        Take(schedule[n]);
        ApiExecSnoc(old(State()), schedule[..n], schedule[n]);
        assert schedule[..n + 1] == schedule[..n] + [schedule[n]];
        n := n + 1;
      }
      assert schedule[..n] == schedule;
      if ApiInitial(old(State())) {
        RunKeepsTheBooks(old(State()), schedule);
      }
    }
  }
}
