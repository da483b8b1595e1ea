/** What the handlers keep, over every interleaving of requests. */
module ApiInvariant {
  import opened Schema
  import opened TransferStore
  import opened StoreInvariant
  import opened Serial
  import opened Serializability
  import opened Ledger
  import opened Idempotency
  import opened TransferApi

  // ---------- the handlers drive the store ----------

  /** The step of the store that a step of the server makes, if any. */
  function StoreAction(a: Api, action: ApiAction): seq<Action> {
    match action
    case Advance(i) => if i < |a.handlers| && a.handlers[i].phase.Running? then [Statement(i)] else []
    case Fail(i) => if i < |a.handlers| && a.handlers[i].phase.Running? then [Interrupt(i)] else []
    case DropAck(i) => if i < |a.handlers| && a.handlers[i].phase.Running? then [LoseAck(i)] else []
    case Open(user, currency) => if SupportedCurrency(currency) then [OpenAccount(user, currency)] else []
  }

  /** The schedule of the store inside a schedule of the server. */
  function StoreSchedule(a: Api, schedule: seq<ApiAction>): seq<Action> {
    if schedule == [] then [] else
    var before := schedule[..|schedule| - 1];
    StoreSchedule(a, before) + StoreAction(ApiExec(a, before), schedule[|schedule| - 1])
  }

  lemma ApiStepDb(a: Api, action: ApiAction)
    requires |a.handlers| == |a.db.txs|
    ensures |ApiStep(a, action).handlers| == |ApiStep(a, action).db.txs| == |a.handlers|
    ensures ApiStep(a, action).db == if StoreAction(a, action) == [] then a.db else Step(a.db, StoreAction(a, action)[0])
    ensures forall j :: 0 <= j < |a.handlers| ==> ApiStep(a, action).handlers[j].req == a.handlers[j].req
  {}

  lemma {:induction false} OtherHandler(a: Api, action: ApiAction, i: nat)
    requires |a.handlers| == |a.db.txs| && i < |a.handlers| && Target(action) != Some(i)
    ensures i < |ApiStep(a, action).handlers| && ApiStep(a, action).handlers[i] == a.handlers[i]
    ensures i < |ApiStep(a, action).db.txs| && ApiStep(a, action).db.txs[i] == a.db.txs[i]
  {
    ApiStepDb(a, action);
    if StoreAction(a, action) != [] {
      StepOfAnother(a.db, StoreAction(a, action)[0], i);
    }
  }

  /** Every run of the server is a run of the store underneath, so all that holds of the
      store's runs holds here. */
  lemma {:induction false} ApiRunsTheStore(a: Api, schedule: seq<ApiAction>)
    requires |a.handlers| == |a.db.txs|
    ensures |ApiExec(a, schedule).handlers| == |ApiExec(a, schedule).db.txs| == |a.handlers|
    ensures ApiExec(a, schedule).db == Exec(a.db, StoreSchedule(a, schedule))
    ensures forall j :: 0 <= j < |a.handlers| ==> ApiExec(a, schedule).handlers[j].req == a.handlers[j].req
  {
    if schedule != [] {
      var before, last := schedule[..|schedule| - 1], schedule[|schedule| - 1];
      ApiRunsTheStore(a, before);
      ApiStepDb(ApiExec(a, before), last);
      var action := StoreAction(ApiExec(a, before), last);
      if action == [] {
        assert StoreSchedule(a, schedule) == StoreSchedule(a, before);
      } else {
        assert action == [action[0]];
        ExecSnoc(a.db, StoreSchedule(a, before), action[0]);
      }
    }
  }

  // ---------- the invariant ----------

  /** The one row of idempotency_keys that is a request's own. */
  function KeyOf(req: Request): KeyId {
    KeyId(req.user, req.key)
  }

  predicate FromChecked(c: Tables, req: Request) {
    && Bound(req.body) && req.body.from != req.body.to
    && req.body.from in c.accounts
    && c.accounts[req.body.from].owner == req.user
    && c.accounts[req.body.from].currency == req.body.currency
  }

  /** The handler's checks, read against these tables. */
  predicate Checked(c: Tables, req: Request) {
    && FromChecked(c, req)
    && req.body.to in c.accounts && c.accounts[req.body.to].currency == req.body.currency
    && (req.key != "" ==> |req.key| <= MAX_KEY_LENGTH)
  }

  predicate OtherCurrency(c: Tables, id: int, req: Request) {
    id in c.accounts && c.accounts[id].currency != req.body.currency
  }

  /** Each refusal before the transaction is for the reason it gives, and no earlier reason held. */
  predicate RefusalFits(c: Tables, req: Request, r: Response) {
    && (r == BadRequest(Malformed) <==> !Bound(req.body))
    && (r == BadRequest(SameAccount) <==> Bound(req.body) && req.body.from == req.body.to)
    && (r == BadRequest(CurrencyMismatch) ==>
          || OtherCurrency(c, req.body.from, req)
          || (FromChecked(c, req) && OtherCurrency(c, req.body.to, req)))
    && (r == Unauthorized ==>
          && req.body.from in c.accounts
          && c.accounts[req.body.from].currency == req.body.currency && c.accounts[req.body.from].owner != req.user)
    && (r == BadRequest(KeyTooLong) ==>
          && FromChecked(c, req)
          && req.body.to in c.accounts && c.accounts[req.body.to].currency == req.body.currency
          && |req.key| > 128)
  }

  ghost predicate PhaseOk(c: Tables, h: Handler, tx: Tx) {
    match h.phase
    case ReadFrom => tx == NewTx(ArgsOf(h.req))
    case ReadTo => tx == NewTx(ArgsOf(h.req)) && FromChecked(c, h.req)
    case Running => !tx.pc.Done? && Checked(c, h.req)
    case Replaying => tx.pc == Done(Failed(UniqueViolation, true)) && h.req.key != "" && Checked(c, h.req)
    case Finished(r) =>
      && (tx == NewTx(ArgsOf(h.req)) || (tx.pc.Done? && Checked(c, h.req)))
      && (Won(tx) ==> h.phase == AfterTx(h.req, tx))
      && (r.OK? ==> tx.pc.Done? && (!r.replayed ==> Won(tx)))
      && ((r.OK? && r.replayed) || r.Conflict? ==> Refused(tx.pc))
      && (r == BadRequest(InsufficientBalance) <==> tx.pc == Done(Failed(BalanceCheckViolation, true)))
      && RefusalFits(c, h.req, r)
  }

  ghost predicate HandlerOk(c: Tables, h: Handler, tx: Tx) {
    && tx.args == ArgsOf(h.req)
    && PhaseOk(c, h, tx)
    && (Refused(tx.pc) ==> h.req.key != "" && KeyOf(h.req) in c.keys)
  }

  ghost predicate ApiInv(a: Api) {
    && Inv(a.db) && |a.handlers| == |a.db.txs|
    && forall i :: 0 <= i < |a.handlers| ==> HandlerOk(a.db.committed, a.handlers[i], a.db.txs[i])
  }

  lemma HandlerFrame(c: Tables, c': Tables, h: Handler, tx: Tx)
    requires HandlerOk(c, h, tx) && SameColumns(c, c') && KeysStay(c, c')
    ensures HandlerOk(c', h, tx)
  {}

  lemma AfterTxOk(c: Tables, req: Request, tx: Tx)
    requires tx.args == ArgsOf(req) && Checked(c, req)
    requires Refused(tx.pc) ==> req.key != "" && KeyOf(req) in c.keys
    ensures HandlerOk(c, Handler(req, AfterTx(req, tx)), tx)
  {}

  lemma {:induction false} TxStepHandler(a: Api, i: nat, action: Action)
    requires ApiInv(a) && i < |a.handlers| && a.handlers[i].phase.Running? && ActsOn(action, i)
    ensures HandlerOk(TxStep(a, i, action).db.committed, TxStep(a, i, action).handlers[i], TxStep(a, i, action).db.txs[i])
  {
    var s, s', req := a.db, Step(a.db, action), a.handlers[i].req;
    StepTx(s, action, i);
    assert HandlerOk(s.committed, a.handlers[i], s.txs[i]);
    assert Checked(s'.committed, req) by {
      StepKeepsColumns(s, action);
    }
    if Refused(s'.txs[i].pc) {
      StepKeepsKeys(s, action);
      RefusedTx(s, action, i);
    }
    AfterTxOk(s'.committed, req, s'.txs[i]);
  }

  lemma {:induction false} TxStepInv(a: Api, i: nat, action: Action)
    requires ApiInv(a) && i < |a.handlers| && a.handlers[i].phase.Running? && ActsOn(action, i)
    ensures ApiInv(TxStep(a, i, action))
  {
    var a' := TxStep(a, i, action);
    StepInv(a.db, action);
    StepTx(a.db, action, i);
    StepKeepsColumns(a.db, action);
    StepKeepsKeys(a.db, action);
    forall j | 0 <= j < |a'.handlers| ensures HandlerOk(a'.db.committed, a'.handlers[j], a'.db.txs[j]) {
      if j == i {
        TxStepHandler(a, i, action);
      } else {
        StepOfAnother(a.db, action, j);
        HandlerFrame(a.db.committed, a'.db.committed, a.handlers[j], a.db.txs[j]);
      }
    }
  }

  lemma PhaseInv(a: Api, i: nat, phase: Phase)
    requires ApiInv(a) && i < |a.handlers|
    requires PhaseOk(a.db.committed, a.handlers[i].(phase := phase), a.db.txs[i])
    ensures ApiInv(WithPhase(a, i, phase))
  {
    var a' := WithPhase(a, i, phase);
    forall j | 0 <= j < |a'.handlers| ensures HandlerOk(a'.db.committed, a'.handlers[j], a'.db.txs[j]) {
      assert HandlerOk(a.db.committed, a.handlers[j], a.db.txs[j]);
    }
  }

  lemma {:induction false} AdvanceInv(a: Api, i: nat)
    requires ApiInv(a) && i < |a.handlers|
    ensures ApiInv(AdvanceStep(a, i))
  {
    var h := a.handlers[i];
    assert HandlerOk(a.db.committed, h, a.db.txs[i]);
    match h.phase
    case ReadFrom => PhaseInv(a, i, CheckFrom(a.db.committed, h.req));
    case ReadTo => PhaseInv(a, i, CheckTo(a.db.committed, h.req));
    case Running => TxStepInv(a, i, Statement(i));
    case Replaying => PhaseInv(a, i, Finished(ReplayStored(a.db.committed, h.req)));
    case Finished(_) =>
  }

  lemma {:induction false} FailInv(a: Api, i: nat)
    requires ApiInv(a) && i < |a.handlers|
    ensures ApiInv(FailStep(a, i))
  {
    var h := a.handlers[i];
    assert HandlerOk(a.db.committed, h, a.db.txs[i]);
    match h.phase
    case ReadFrom =>
      if Bound(h.req.body) && h.req.body.from != h.req.body.to {
        PhaseInv(a, i, Finished(InternalError));
      } else {
        AdvanceInv(a, i);
      }
    case Running => TxStepInv(a, i, Interrupt(i));
    case Finished(_) =>
    case _ => PhaseInv(a, i, Finished(InternalError));
  }

  lemma {:induction false} OpenApiInv(a: Api, user: string, currency: string)
    requires ApiInv(a)
    ensures ApiInv(a.(db := Step(a.db, OpenAccount(user, currency))))
  {
    var action := OpenAccount(user, currency);
    StepInv(a.db, action);
    StepKeepsColumns(a.db, action);
    StepKeepsKeys(a.db, action);
    var s' := Step(a.db, action);
    forall j | 0 <= j < |a.handlers| ensures HandlerOk(s'.committed, a.handlers[j], s'.txs[j]) {
      HandlerFrame(a.db.committed, s'.committed, a.handlers[j], a.db.txs[j]);
    }
  }

  lemma {:induction false} ApiStepInv(a: Api, action: ApiAction)
    requires ApiInv(a)
    ensures ApiInv(ApiStep(a, action))
  {
    match action
    case Advance(i) => if i < |a.handlers| { AdvanceInv(a, i); }
    case Fail(i) => if i < |a.handlers| { FailInv(a, i); }
    case DropAck(i) => if i < |a.handlers| && a.handlers[i].phase.Running? { TxStepInv(a, i, LoseAck(i)); }
    case Open(user, currency) => OpenApiInv(a, user, currency);
  }

  lemma {:induction false} ApiExecInv(a: Api, schedule: seq<ApiAction>)
    requires ApiInitial(a)
    ensures ApiInv(ApiExec(a, schedule))
  {
    if schedule == [] {
      InitialInv(a.db);
    } else {
      ApiExecInv(a, schedule[..|schedule| - 1]);
      ApiStepInv(ApiExec(a, schedule[..|schedule| - 1]), schedule[|schedule| - 1]);
    }
  }

  // ---------- the unlocked checks hold until the commit ----------

  /** Both checks are read without a lock, before the transaction begins. They are still true
      of the tables committed at any later moment: while the transaction runs, when it
      commits, and afterwards. */
  lemma ChecksStayTrue(a: Api, schedule: seq<ApiAction>, i: nat)
    requires ApiInitial(a) && i < |a.handlers|
    requires i < |ApiExec(a, schedule).db.txs| && !ApiExec(a, schedule).db.txs[i].pc.Begin?
    ensures Checked(ApiExec(a, schedule).db.committed, a.handlers[i].req)
  {
    ApiExecInv(a, schedule);
    ApiRunsTheStore(a, schedule);
    var m := ApiExec(a, schedule);
    assert HandlerOk(m.db.committed, m.handlers[i], m.db.txs[i]);
  }

  /** A transfer that commits under the server is between two accounts of one currency. */
  lemma CommitsAreBalanced(a: Api, action: ApiAction)
    requires ApiInv(a) && StoreAction(a, action) != []
    ensures var e := EventOf(a.db, StoreAction(a, action)[0]);
      e != [] && e[0].Transferred? ==> Balanced(a.db.committed, e[0].args.transfer)
  {
    var e := EventOf(a.db, StoreAction(a, action)[0]);
    if e != [] && e[0].Transferred? {
      var i := e[0].t;
      assert HandlerOk(a.db.committed, a.handlers[i], a.db.txs[i]);
    }
  }

  /** Conservation by currency: over every run of POST /transfers and POST /accounts, the money
      held in each currency never changes. */
  lemma {:induction false} MoneyIsConserved(a: Api, schedule: seq<ApiAction>, currency: string, n: nat)
    requires ApiInitial(a) && ApiExec(a, schedule).db.seqs.account <= n
    ensures CurrencyTotal(ApiExec(a, schedule).db.committed.accounts, currency, n) ==
      CurrencyTotal(a.db.committed.accounts, currency, n)
  {
    if schedule != [] {
      var before, last := schedule[..|schedule| - 1], schedule[|schedule| - 1];
      var m := ApiExec(a, before);
      ApiExecInv(a, before);
      ApiStepDb(m, last);
      if StoreAction(m, last) != [] {
        StepSequences(m.db, StoreAction(m, last)[0]);
        CommitsAreBalanced(m, last);
        StepConserves(m.db, StoreAction(m, last)[0], currency, n);
      }
      MoneyIsConserved(a, before, currency, n);
    }
  }
}
