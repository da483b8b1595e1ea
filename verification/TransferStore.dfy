/** The transfer store as a state machine. Any number of transactions run the bodies of
    TransferTx and IdempotentTransferTx, one SQL statement at a time and in any order.

    The database gives each transaction what Read Committed gives it: a statement sees the
    rows that are committed when it runs, under the transaction's own writes. A row written
    by an unfinished transaction is locked by it, so the pending writes are also the locks. */
module TransferStore {
  import opened Schema

  /** The statement a transaction runs next. */
  datatype Pc =
    | Begin | Claim | InsertTransfer | InsertFromEntry | InsertToEntry
    | AddFirst | AddSecond | Complete | Commit
    | RollBack(cause: Error)
    | Done(outcome: Outcome)

  datatype Outcome =
    | Committed(acknowledged: bool)
    | Failed(error: Error, rolledBack: bool)  // not rolledBack: the error comes back wrapped

  datatype Tx = Tx(args: TxArgs, pc: Pc, writes: Tables, result: TransferResult)

  function NewTx(args: TxArgs): Tx {
    Tx(args, Begin, NO_ROWS, ZERO_RESULT)
  }

  /** The next values of the id sequences. A rollback does not restore them. */
  datatype Sequences = Sequences(account: int, transfer: int, entry: int)

  datatype Db = Db(users: set<string>, committed: Tables, seqs: Sequences, txs: seq<Tx>)

  datatype Action =
    | Statement(t: nat)                               // t runs its next statement, or keeps waiting
    | Interrupt(t: nat)                               // t's next call fails for an outside reason
    | LoseAck(t: nat)                                 // t's COMMIT takes effect but its reply is lost
    | OpenAccount(owner: string, currency: string)    // createAccount, one statement on its own

  // ---------- lock order ----------

  function FirstId(a: TransferArgs): Int64 { if a.from < a.to then a.from else a.to }
  function FirstAmount(a: TransferArgs): Int64 { if a.from < a.to then Negate(a.amount) else a.amount }
  function SecondId(a: TransferArgs): Int64 { if a.from < a.to then a.to else a.from }
  function SecondAmount(a: TransferArgs): Int64 { if a.from < a.to then a.amount else Negate(a.amount) }

  // ---------- locks ----------

  datatype Resource = KeyLock(key: KeyId) | AccountLock(id: int)

  /** The row a transaction's next statement has to lock, if any. */
  function Needs(tx: Tx): Option<Resource> {
    match tx.pc
    case Claim => if tx.args.claim.Some? then Some(KeyLock(tx.args.claim.value.id)) else None
    case AddFirst => Some(AccountLock(FirstId(tx.args.transfer)))
    case AddSecond => Some(AccountLock(SecondId(tx.args.transfer)))
    case _ => None
  }

  predicate Holds(tx: Tx, r: Resource) {
    match r
    case KeyLock(k) => k in tx.writes.keys
    case AccountLock(id) => id in tx.writes.accounts
  }

  predicate WaitsFor(s: Db, t: nat, u: nat) {
    && t < |s.txs| && u < |s.txs| && t != u
    && Needs(s.txs[t]).Some?
    && Holds(s.txs[u], Needs(s.txs[t]).value)
  }

  predicate Blocked(s: Db, t: nat) {
    exists u: nat | u < |s.txs| :: WaitsFor(s, t, u)
  }

  // ---------- statements ----------

  predicate AccountsExist(c: Tables, a: TransferArgs) {
    a.from in c.accounts && a.to in c.accounts
  }

  /** UPDATE accounts SET balance = balance + amount WHERE id = id, over the committed rows
      and the transaction's own. */
  function AddAccountBalance(c: map<int, Account>, own: map<int, Account>, id: int, amount: Int64): Reply<Account> {
    if id !in own && id !in c then Err(NoRows) else
    var row := if id in own then own[id] else c[id];
    var balance := row.balance + amount;
    if !(INT64_MIN <= balance <= INT64_MAX) then Err(OutOfRange)
    else if balance < 0 then Err(BalanceCheckViolation)
    else Row(row.(balance := balance))
  }

  /** A statement failed: the server drops the transaction's writes and its locks, and
      execTx goes on to call Rollback. */
  function Abort(tx: Tx, e: Error): Tx {
    tx.(pc := RollBack(e), writes := NO_ROWS)
  }

  function RunClaim(c: Tables, tx: Tx): Tx {
    match tx.args.claim
    case None => tx.(pc := InsertTransfer)
    case Some(claim) =>
      if claim.id in c.keys then Abort(tx, UniqueViolation)
      else tx.(pc := InsertTransfer,
               writes := tx.writes.(keys := tx.writes.keys[claim.id := KeyRow(claim.requestHash, Empty)]))
  }

  function RunInsertTransfer(c: Tables, q: Sequences, tx: Tx): Tx {
    var a := tx.args.transfer;
    if !AccountsExist(c, a) then Abort(tx, ForeignKeyViolation) else
    var row := Transfer(q.transfer, a.from, a.to, a.amount);
    tx.(pc := InsertFromEntry,
        writes := tx.writes.(transfers := tx.writes.transfers[row.id := row]),
        result := tx.result.(transfer := row))
  }

  function RunInsertFromEntry(c: Tables, q: Sequences, tx: Tx): Tx {
    var a := tx.args.transfer;
    if a.from !in c.accounts then Abort(tx, ForeignKeyViolation) else
    var row := Entry(q.entry, a.from, Negate(a.amount));
    tx.(pc := InsertToEntry,
        writes := tx.writes.(entries := tx.writes.entries[row.id := row]),
        result := tx.result.(fromEntry := row))
  }

  function RunInsertToEntry(c: Tables, q: Sequences, tx: Tx): Tx {
    var a := tx.args.transfer;
    if a.to !in c.accounts then Abort(tx, ForeignKeyViolation) else
    var row := Entry(q.entry, a.to, a.amount);
    tx.(pc := AddFirst,
        writes := tx.writes.(entries := tx.writes.entries[row.id := row]),
        result := tx.result.(toEntry := row))
  }

  function RunAddFirst(c: Tables, tx: Tx): Tx {
    var a := tx.args.transfer;
    match AddAccountBalance(c.accounts, tx.writes.accounts, FirstId(a), FirstAmount(a))
    case Err(e) => Abort(tx, e)
    case Row(row) =>
      tx.(pc := AddSecond,
          writes := tx.writes.(accounts := tx.writes.accounts[FirstId(a) := row]),
          result := if a.from < a.to then tx.result.(fromAccount := row) else tx.result.(toAccount := row))
  }

  function RunAddSecond(c: Tables, tx: Tx): Tx {
    var a := tx.args.transfer;
    match AddAccountBalance(c.accounts, tx.writes.accounts, SecondId(a), SecondAmount(a))
    case Err(e) => Abort(tx, e)
    case Row(row) =>
      tx.(pc := if tx.args.claim.Some? then Complete else Commit,
          writes := tx.writes.(accounts := tx.writes.accounts[SecondId(a) := row]),
          result := if a.from < a.to then tx.result.(toAccount := row) else tx.result.(fromAccount := row))
  }

  /** UPDATE idempotency_keys SET response_body: it finds the row this transaction claimed. */
  function RunComplete(c: Tables, tx: Tx): Tx {
    match tx.args.claim
    case None => tx.(pc := Commit)
    case Some(claim) =>
      if claim.id !in tx.writes.keys && claim.id !in c.keys then Abort(tx, NoRows) else
      var row := if claim.id in tx.writes.keys then tx.writes.keys[claim.id] else c.keys[claim.id];
      tx.(pc := Commit,
          writes := tx.writes.(keys := tx.writes.keys[claim.id := row.(responseBody := Json(tx.result))]))
  }

  /** Every statement but COMMIT: it changes only the transaction that runs it. */
  function RunStatement(c: Tables, q: Sequences, tx: Tx): Tx {
    match tx.pc
    case Begin => tx.(pc := if tx.args.claim.Some? then Claim else InsertTransfer)
    case Claim => RunClaim(c, tx)
    case InsertTransfer => RunInsertTransfer(c, q, tx)
    case InsertFromEntry => RunInsertFromEntry(c, q, tx)
    case InsertToEntry => RunInsertToEntry(c, q, tx)
    case AddFirst => RunAddFirst(c, tx)
    case AddSecond => RunAddSecond(c, tx)
    case Complete => RunComplete(c, tx)
    case Commit => tx
    case RollBack(e) => tx.(pc := Done(Failed(e, true)))
    case Done(_) => tx
  }

  /** An INSERT draws its id before its constraints are checked, so a failed one spends it. */
  function Draw(q: Sequences, pc: Pc): Sequences {
    match pc
    case InsertTransfer => q.(transfer := q.transfer + 1)
    case InsertFromEntry => q.(entry := q.entry + 1)
    case InsertToEntry => q.(entry := q.entry + 1)
    case _ => q
  }

  function CommitTx(s: Db, t: nat, acknowledged: bool): Db
    requires t < |s.txs|
  {
    s.(committed := Overlay(s.committed, s.txs[t].writes),
       txs := s.txs[t := s.txs[t].(pc := Done(Committed(acknowledged)), writes := NO_ROWS)])
  }

  function StatementStep(s: Db, t: nat): Db {
    if t >= |s.txs| || Blocked(s, t) then s
    else if s.txs[t].pc.Commit? then CommitTx(s, t, true)
    else s.(seqs := Draw(s.seqs, s.txs[t].pc),
            txs := s.txs[t := RunStatement(s.committed, s.seqs, s.txs[t])])
  }

  /** The call a transaction is in fails. execTx rolls back, unless it was the BEGIN or the
      COMMIT that failed; a Rollback that fails wraps the error it was called for. */
  function InterruptTx(tx: Tx): Tx {
    match tx.pc
    case Done(_) => tx
    case RollBack(e) => tx.(pc := Done(Failed(e, false)))
    case Begin => tx.(pc := Done(Failed(Interrupted, true)))
    case Commit => tx.(pc := Done(Failed(Interrupted, true)), writes := NO_ROWS)
    case _ => Abort(tx, Interrupted)
  }

  predicate OwnerCurrencyTaken(c: Tables, owner: string, currency: string) {
    exists id :: id in c.accounts && c.accounts[id].owner == owner && c.accounts[id].currency == currency
  }

  /** createAccount: a balance of 0, one account for each owner and currency, a known user. */
  predicate CanOpen(s: Db, owner: string, currency: string) {
    owner in s.users && !OwnerCurrencyTaken(s.committed, owner, currency)
  }

  function OpenStep(s: Db, owner: string, currency: string): Db {
    var id := s.seqs.account;
    var q := s.seqs.(account := id + 1);
    if CanOpen(s, owner, currency) then
      s.(seqs := q, committed :=
        s.committed.(accounts := s.committed.accounts[id := Account(id, owner, 0, currency)]))
    else s.(seqs := q)
  }

  function Step(s: Db, a: Action): Db {
    match a
    case Statement(t) => StatementStep(s, t)
    case Interrupt(t) => if t < |s.txs| then s.(txs := s.txs[t := InterruptTx(s.txs[t])]) else s
    case LoseAck(t) => if t < |s.txs| && s.txs[t].pc.Commit? then CommitTx(s, t, false) else s
    case OpenAccount(owner, currency) => OpenStep(s, owner, currency)
  }

  /** The state after a whole schedule. */
  function Exec(s: Db, schedule: seq<Action>): Db {
    if schedule == [] then s
    else Step(Exec(s, schedule[..|schedule| - 1]), schedule[|schedule| - 1])
  }

  lemma ExecSnoc(s: Db, schedule: seq<Action>, a: Action)
    ensures Exec(s, schedule + [a]) == Step(Exec(s, schedule), a)
  {
    assert (schedule + [a])[..|schedule|] == schedule;
  }

  lemma ExecLast(s: Db, first: seq<Action>, rest: seq<Action>)
    requires rest != []
    ensures Exec(s, first + rest) == Step(Exec(s, first + rest[..|rest| - 1]), rest[|rest| - 1])
  {
    var n := |rest| - 1;
    assert first + rest == first + rest[..n] + [rest[n]];
    ExecSnoc(s, first + rest[..n], rest[n]);
  }

  /** The transaction took effect. */
  predicate Won(tx: Tx) {
    tx.pc.Done? && tx.pc.outcome.Committed?
  }

  /** The transaction a step belongs to. */
  predicate ActsOn(a: Action, t: nat) {
    a == Statement(t) || a == Interrupt(t) || a == LoseAck(t)
  }

  lemma StepOfAnother(s: Db, a: Action, u: nat)
    requires u < |s.txs| && !ActsOn(a, u)
    ensures |Step(s, a).txs| == |s.txs| && Step(s, a).txs[u] == s.txs[u]
  {}

  /** A COMMIT waits for nothing. */
  lemma CommitIsUnblocked(s: Db, t: nat, a: Action)
    requires t < |s.txs| && s.txs[t].pc.Commit? && (a == Statement(t) || a == LoseAck(t))
    ensures Step(s, a) == CommitTx(s, t, a.Statement?)
  {}

  // ---------- where a run starts ----------

  /** The stored body is there and encodes a committed transfer. */
  ghost predicate Completed(c: Tables, k: KeyId)
    requires k in c.keys
  {
    && c.keys[k].responseBody.Json?
    && var transfer := c.keys[k].responseBody.result.transfer;
       transfer.id in c.transfers && c.transfers[transfer.id] == transfer
  }

  ghost predicate AccountsFit(accounts: map<int, Account>, next: int) {
    && 0 <= next
    && forall id :: id in accounts ==> 0 <= id < next && accounts[id].id == id && 0 <= accounts[id].balance <= INT64_MAX
  }

  ghost predicate TransfersFit(transfers: map<int, Transfer>, next: int) {
    0 <= next && forall id :: id in transfers ==> 0 <= id < next && transfers[id].id == id
  }

  ghost predicate EntriesFit(entries: map<int, Entry>, next: int, accounts: map<int, Account>) {
    && 0 <= next
    && forall id :: id in entries ==> 0 <= id < next && entries[id].id == id && entries[id].account in accounts
  }

  /** A database in use: arbitrary balances that meet the CHECK, arbitrary history, sequences
      ahead of every id, every stored key completed by a transfer that is there. */
  ghost predicate WellFormed(c: Tables, q: Sequences) {
    && AccountsFit(c.accounts, q.account)
    && TransfersFit(c.transfers, q.transfer)
    && EntriesFit(c.entries, q.entry, c.accounts)
    && forall k :: k in c.keys ==> Completed(c, k)
  }

  ghost predicate Initial(s: Db) {
    && WellFormed(s.committed, s.seqs)
    && forall t :: 0 <= t < |s.txs| ==> s.txs[t] == NewTx(s.txs[t].args)
  }
}
