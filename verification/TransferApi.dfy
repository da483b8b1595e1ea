/** POST /transfers and POST /accounts over the store. Any number of requests are handled at
    once; a handler's reads, its transaction's statements and its replay read interleave with
    those of every other handler. */
module TransferApi {
  import opened Schema
  import opened TransferStore
  import opened Fingerprint

  /** An authenticated request; an empty key stands for a missing Idempotency-Key header. A key
      is the bytes of that header, one char each. */
  datatype Request = Request(user: string, key: string, body: TransferRequest)

  datatype Response =
    | OK(body: Body, replayed: bool)
    | BadRequest(why: Reason)
    | Unauthorized
    | NotFound
    | Conflict(cause: ConflictCause)
    | InternalError

  datatype Reason = Malformed | SameAccount | CurrencyMismatch | KeyTooLong | InsufficientBalance
  datatype ConflictCause = DifferentTransfer | StillProcessing

  datatype Phase = ReadFrom | ReadTo | Running | Replaying | Finished(response: Response)

  datatype Handler = Handler(req: Request, phase: Phase)

  /** Handler i runs its transaction as transaction i of the store. */
  datatype Api = Api(db: Db, handlers: seq<Handler>)

  datatype ApiAction =
    | Advance(i: nat)                         // handler i makes its next call, or keeps waiting
    | Fail(i: nat)                            // that call fails for an outside reason
    | DropAck(i: nat)                         // its COMMIT takes effect but the reply is lost
    | Open(user: string, currency: string)    // a POST /accounts request

  const MAX_KEY_LENGTH := 128

  predicate SupportedCurrency(currency: string) {
    currency == "USD" || currency == "EUR" || currency == "CAD"
  }

  /** What binding guarantees of a request it lets through. */
  predicate Bound(b: TransferRequest) {
    b.from >= 1 && b.to >= 1 && b.amount > 0 && SupportedCurrency(b.currency)
  }

  function ArgsOf(req: Request): TxArgs {
    TxArgs(
      TransferArgs(req.body.from, req.body.to, req.body.amount),
      if req.key == "" then None else Some(ClaimOf(KeyId(req.user, req.key), FingerprintOf(req.body))))
  }

  /** validAccount: the refusal, if there is one. */
  function ValidAccount(c: Tables, id: int, currency: string): Option<Response> {
    if id !in c.accounts then Some(NotFound)
    else if c.accounts[id].currency != currency then Some(BadRequest(CurrencyMismatch))
    else None
  }

  function CheckFrom(c: Tables, req: Request): Phase {
    if !Bound(req.body) then Finished(BadRequest(Malformed))
    else if req.body.from == req.body.to then Finished(BadRequest(SameAccount))
    else match ValidAccount(c, req.body.from, req.body.currency)
    case Some(refusal) => Finished(refusal)
    case None =>
      if c.accounts[req.body.from].owner != req.user then Finished(Unauthorized) else ReadTo
  }

  function CheckTo(c: Tables, req: Request): Phase {
    match ValidAccount(c, req.body.to, req.body.currency)
    case Some(refusal) => Finished(refusal)
    case None =>
      if req.key != "" && |req.key| > MAX_KEY_LENGTH then Finished(BadRequest(KeyTooLong)) else Running
  }

  /** What the handler makes of the outcome of its transaction. An error that comes back
      wrapped is no longer a database error, so it is not recognised. */
  function AfterTx(req: Request, tx: Tx): Phase {
    match tx.pc
    case Done(Committed(true)) => Finished(OK(Json(tx.result), false))
    case Done(Committed(false)) => Finished(InternalError)
    case Done(Failed(error, rolledBack)) =>
      if !rolledBack then Finished(InternalError)
      else if req.key != "" && error == UniqueViolation then Replaying
      else if error == BalanceCheckViolation then Finished(BadRequest(InsufficientBalance))
      else Finished(InternalError)
    case _ => Running
  }

  /** replayIdempotentTransfer. */
  function ReplayStored(c: Tables, req: Request): Response {
    var k := KeyId(req.user, req.key);
    if k !in c.keys then InternalError
    else if c.keys[k].requestHash != FingerprintOf(req.body) then Conflict(DifferentTransfer)
    else if c.keys[k].responseBody.Empty? then Conflict(StillProcessing)
    else OK(c.keys[k].responseBody, true)
  }

  function WithPhase(a: Api, i: nat, phase: Phase): Api
    requires i < |a.handlers|
  {
    a.(handlers := a.handlers[i := a.handlers[i].(phase := phase)])
  }

  /** The handler's transaction takes a step of the store. */
  function TxStep(a: Api, i: nat, action: Action): Api
    requires i < |a.handlers|
  {
    var db := Step(a.db, action);
    if i < |db.txs| then WithPhase(a.(db := db), i, AfterTx(a.handlers[i].req, db.txs[i])) else a
  }

  function AdvanceStep(a: Api, i: nat): Api
    requires i < |a.handlers|
  {
    var h := a.handlers[i];
    match h.phase
    case ReadFrom => WithPhase(a, i, CheckFrom(a.db.committed, h.req))
    case ReadTo => WithPhase(a, i, CheckTo(a.db.committed, h.req))
    case Running => TxStep(a, i, Statement(i))
    case Replaying => WithPhase(a, i, Finished(ReplayStored(a.db.committed, h.req)))
    case Finished(_) => a
  }

  function FailStep(a: Api, i: nat): Api
    requires i < |a.handlers|
  {
    var h := a.handlers[i];
    match h.phase
    case ReadFrom =>
      // a request that is refused before the read cannot fail in it
      if Bound(h.req.body) && h.req.body.from != h.req.body.to then WithPhase(a, i, Finished(InternalError))
      else AdvanceStep(a, i)
    case Running => TxStep(a, i, Interrupt(i))
    case Finished(_) => a
    case _ => WithPhase(a, i, Finished(InternalError))
  }

  function ApiStep(a: Api, action: ApiAction): Api {
    match action
    case Advance(i) => if i < |a.handlers| then AdvanceStep(a, i) else a
    case Fail(i) => if i < |a.handlers| then FailStep(a, i) else a
    case DropAck(i) => if i < |a.handlers| && a.handlers[i].phase.Running? then TxStep(a, i, LoseAck(i)) else a
    case Open(user, currency) =>
      if SupportedCurrency(currency) then a.(db := Step(a.db, OpenAccount(user, currency))) else a
  }

  /** The request whose handler takes the step. */
  function Target(action: ApiAction): Option<nat> {
    match action
    case Advance(i) => Some(i)
    case Fail(i) => Some(i)
    case DropAck(i) => Some(i)
    case Open(_, _) => None
  }

  predicate Answered(a: Api, i: int) {
    0 <= i < |a.handlers| && a.handlers[i].phase.Finished?
  }

  function ApiExec(a: Api, schedule: seq<ApiAction>): Api {
    if schedule == [] then a
    else ApiStep(ApiExec(a, schedule[..|schedule| - 1]), schedule[|schedule| - 1])
  }

  lemma ApiExecSnoc(a: Api, schedule: seq<ApiAction>, action: ApiAction)
    ensures ApiExec(a, schedule + [action]) == ApiStep(ApiExec(a, schedule), action)
  {
    assert (schedule + [action])[..|schedule|] == schedule;
  }

  lemma ApiExecLast(a: Api, first: seq<ApiAction>, rest: seq<ApiAction>)
    requires rest != []
    ensures ApiExec(a, first + rest) == ApiStep(ApiExec(a, first + rest[..|rest| - 1]), rest[|rest| - 1])
  {
    var n := |rest| - 1;
    assert first + rest == first + rest[..n] + [rest[n]];
    ApiExecSnoc(a, first + rest[..n], rest[n]);
  }

  ghost predicate ApiInitial(a: Api) {
    && Initial(a.db) && |a.handlers| == |a.db.txs|
    && forall i :: 0 <= i < |a.handlers| ==>
         a.handlers[i].phase == ReadFrom && a.db.txs[i] == NewTx(ArgsOf(a.handlers[i].req))
  }
}
