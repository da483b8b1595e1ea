/** The store as the program has it: tables that statements change in place. */
module SqlStore {
  import opened Schema
  import opened TransferStore
  import opened Serial
  import opened Serializability
  import opened LockOrder

  /** The error a transfer of a positive amount between two accounts meets when it is not
      affordable: the account with the lower id is updated first. */
  function FirstFailure(c: map<int, Account>, a: TransferArgs): Error
    requires a.from in c && a.to in c
  {
    var short, full := c[a.from].balance < a.amount, c[a.to].balance + a.amount > INT64_MAX;
    if a.from < a.to then (if short then BalanceCheckViolation else OutOfRange)
    else (if full then OutOfRange else BalanceCheckViolation)
  }

  /** A transfer the handler would let through, with an unspent key, that the balances refuse. */
  predicate Unaffordable(c: Tables, args: TxArgs) {
    && Proper(args.transfer) && Unclaimed(c.keys, args.claim)
    && AccountsExist(c, args.transfer) && !Affordable(c.accounts, args.transfer)
  }

  class SQLStore {
    const users: set<string>
    var accounts: map<int, Account>
    var transfers: map<int, Transfer>
    var entries: map<int, Entry>
    var keys: map<KeyId, KeyRow>
    var nextAccount: int
    var nextTransfer: int
    var nextEntry: int
    var txs: seq<Tx>

    function Tables(): Tables
      reads this
    {
      Schema.Tables.Tables(accounts, transfers, entries, keys)
    }

    function State(): Db
      reads this
    {
      Db(users, Tables(), Sequences(nextAccount, nextTransfer, nextEntry), txs)
    }

    constructor (s: Db)
      ensures State() == s
    {
      users := s.users;
      accounts, transfers, entries, keys := s.committed.accounts, s.committed.transfers, s.committed.entries, s.committed.keys;
      nextAccount, nextTransfer, nextEntry := s.seqs.account, s.seqs.transfer, s.seqs.entry;
      txs := s.txs;
    }

    // ---------- statements ----------
    // Each runs inside transaction t, whose pending rows it reads and adds to.

    /** INSERT INTO idempotency_keys. */
    method CreateIdempotencyKey(t: nat, id: KeyId, requestHash: Digest) returns (r: Reply<KeyRow>)
      requires t < |txs|
      modifies this`txs
      ensures r == if id in keys then Err(UniqueViolation) else Row(KeyRow(requestHash, Empty))
      ensures txs == if r.Err? then old(txs) else
        old(txs)[t := old(txs)[t].(writes := old(txs)[t].writes.(keys := old(txs)[t].writes.keys[id := r.row]))]
    {
      if id in keys {
        return Err(UniqueViolation);
      }
      var row := KeyRow(requestHash, Empty);
      txs := txs[t := txs[t].(writes := txs[t].writes.(keys := txs[t].writes.keys[id := row]))];
      return Row(row);
    }

    /** UPDATE idempotency_keys SET response_body. */
    method CompleteIdempotencyKey(t: nat, id: KeyId, responseBody: Body) returns (r: Reply<KeyRow>)
      requires t < |txs|
      modifies this`txs
      ensures var own := old(txs)[t].writes.keys;
        r == if id in own then Row(own[id].(responseBody := responseBody))
             else if id in keys then Row(keys[id].(responseBody := responseBody))
             else Err(NoRows)
      ensures txs == if r.Err? then old(txs) else
        old(txs)[t := old(txs)[t].(writes := old(txs)[t].writes.(keys := old(txs)[t].writes.keys[id := r.row]))]
    {
      var own := txs[t].writes.keys;
      if id !in own && id !in keys {
        return Err(NoRows);
      }
      var row := (if id in own then own[id] else keys[id]).(responseBody := responseBody);
      txs := txs[t := txs[t].(writes := txs[t].writes.(keys := own[id := row]))];
      return Row(row);
    }

    /** INSERT INTO transfers. The id is drawn before the foreign keys are checked. */
    method CreateTransfer(t: nat, arg: TransferArgs) returns (r: Reply<Transfer>)
      requires t < |txs|
      modifies this`txs, this`nextTransfer
      ensures nextTransfer == old(nextTransfer) + 1
      ensures r == if arg.from in accounts && arg.to in accounts
        then Row(Transfer(old(nextTransfer), arg.from, arg.to, arg.amount)) else Err(ForeignKeyViolation)
      ensures txs == if r.Err? then old(txs) else
        old(txs)[t := old(txs)[t].(writes := old(txs)[t].writes.(transfers := old(txs)[t].writes.transfers[r.row.id := r.row]))]
    {
      var row := Transfer(nextTransfer, arg.from, arg.to, arg.amount);
      nextTransfer := nextTransfer + 1;
      if arg.from !in accounts || arg.to !in accounts {
        return Err(ForeignKeyViolation);
      }
      txs := txs[t := txs[t].(writes := txs[t].writes.(transfers := txs[t].writes.transfers[row.id := row]))];
      return Row(row);
    }

    /** INSERT INTO entries. */
    method CreateEntry(t: nat, account: int, amount: Int64) returns (r: Reply<Entry>)
      requires t < |txs|
      modifies this`txs, this`nextEntry
      ensures nextEntry == old(nextEntry) + 1
      ensures r == if account in accounts then Row(Entry(old(nextEntry), account, amount)) else Err(ForeignKeyViolation)
      ensures txs == if r.Err? then old(txs) else
        old(txs)[t := old(txs)[t].(writes := old(txs)[t].writes.(entries := old(txs)[t].writes.entries[r.row.id := r.row]))]
    {
      var row := Entry(nextEntry, account, amount);
      nextEntry := nextEntry + 1;
      if account !in accounts {
        return Err(ForeignKeyViolation);
      }
      txs := txs[t := txs[t].(writes := txs[t].writes.(entries := txs[t].writes.entries[row.id := row]))];
      return Row(row);
    }

    /** UPDATE accounts SET balance = balance + amount: it adds to the balance it finds, under
        the CHECK and the range of the column. */
    method AddAccountBalance(t: nat, id: int, amount: Int64) returns (r: Reply<Account>)
      requires t < |txs|
      modifies this`txs
      ensures r == TransferStore.AddAccountBalance(accounts, old(txs)[t].writes.accounts, id, amount)
      ensures txs == if r.Err? then old(txs) else
        old(txs)[t := old(txs)[t].(writes := old(txs)[t].writes.(accounts := old(txs)[t].writes.accounts[id := r.row]))]
    {
      var own := txs[t].writes.accounts;
      if id !in own && id !in accounts {
        return Err(NoRows);
      }
      var row := if id in own then own[id] else accounts[id];
      var balance := row.balance + amount;
      if balance < INT64_MIN || INT64_MAX < balance {
        return Err(OutOfRange);
      }
      if balance < 0 {
        return Err(BalanceCheckViolation);
      }
      row := row.(balance := balance);
      txs := txs[t := txs[t].(writes := txs[t].writes.(accounts := own[id := row]))];
      return Row(row);
    }

    /** The server aborts a transaction whose statement failed. */
    method AbortTx(t: nat, e: Error)
      requires t < |txs|
      modifies this`txs
      ensures txs == old(txs)[t := Abort(old(txs)[t], e)]
    {
      txs := txs[t := txs[t].(pc := RollBack(e), writes := NO_ROWS)];
    }

    /** COMMIT: every pending row becomes visible at once, and every lock is released. */
    method CommitPending(t: nat, acknowledged: bool)
      requires t < |txs|
      modifies this`accounts, this`transfers, this`entries, this`keys, this`txs
      ensures State() == CommitTx(old(State()), t, acknowledged)
    {
      var w := txs[t].writes;
      accounts := accounts + w.accounts;
      transfers := transfers + w.transfers;
      entries := entries + w.entries;
      keys := keys + w.keys;
      txs := txs[t := txs[t].(pc := Done(Committed(acknowledged)), writes := NO_ROWS)];
    }

    /** INSERT INTO accounts, on its own: createAccount. */
    method CreateAccount(owner: string, currency: string) returns (r: Reply<Account>)
      modifies this`accounts, this`nextAccount
      ensures State() == OpenStep(old(State()), owner, currency) && nextAccount == old(nextAccount) + 1
      ensures r.Row? <==>
        && owner in users
        && forall id :: id in old(accounts) ==> old(accounts)[id].owner != owner || old(accounts)[id].currency != currency
      ensures accounts == if r.Row? then old(accounts)[old(nextAccount) := Account(old(nextAccount), owner, 0, currency)] else old(accounts)
      ensures r.Row? ==> r.row == Account(old(nextAccount), owner, 0, currency)
      ensures r.Err? ==> r.error == if owner in users then UniqueViolation else ForeignKeyViolation
    {
      var row := Account(nextAccount, owner, 0, currency);
      nextAccount := nextAccount + 1;
      if owner !in users {
        return Err(ForeignKeyViolation);
      }
      if OwnerCurrencyTaken(Tables(), owner, currency) {
        return Err(UniqueViolation);
      }
      accounts := accounts[row.id := row];
      return Row(row);
    }

    // ---------- any number of transactions, statement by statement ----------

    /** The result of transaction t so far, and where it goes next. */
    method Continue(t: nat, pc: Pc, result: TransferResult)
      requires t < |txs|
      modifies this`txs
      ensures txs == old(txs)[t := old(txs)[t].(pc := pc, result := result)]
    {
      txs := txs[t := txs[t].(pc := pc, result := result)];
    }

    method RunKeyStatement(t: nat)
      requires t < |txs| && (txs[t].pc.Claim? || txs[t].pc.Complete?)
      modifies this`txs
      ensures txs == old(txs)[t := RunStatement(Tables(), State().seqs, old(txs)[t])]
    {
      var tx := txs[t];
      if tx.args.claim.None? {
        Continue(t, if tx.pc.Claim? then InsertTransfer else Commit, tx.result);
        return;
      }
      var claim := tx.args.claim.value;
      if tx.pc.Claim? {
        var r := CreateIdempotencyKey(t, claim.id, claim.requestHash);
        if r.Err? { AbortTx(t, r.error); } else { Continue(t, InsertTransfer, tx.result); }
      } else {
        var r := CompleteIdempotencyKey(t, claim.id, Json(tx.result));
        if r.Err? { AbortTx(t, r.error); } else { Continue(t, Commit, tx.result); }
      }
    }

    method RunInsertStatement(t: nat)
      requires t < |txs| && (txs[t].pc.InsertTransfer? || txs[t].pc.InsertFromEntry? || txs[t].pc.InsertToEntry?)
      modifies this`txs, this`nextTransfer, this`nextEntry
      ensures txs == old(txs)[t := RunStatement(Tables(), old(State()).seqs, old(txs)[t])]
      ensures State().seqs == Draw(old(State()).seqs, old(txs)[t].pc)
    {
      var tx := txs[t];
      var a := tx.args.transfer;
      match tx.pc
      case InsertTransfer =>
        var r := CreateTransfer(t, a);
        if r.Err? { AbortTx(t, r.error); } else { Continue(t, InsertFromEntry, tx.result.(transfer := r.row)); }
      case InsertFromEntry =>
        var r := CreateEntry(t, a.from, Negate(a.amount));
        if r.Err? { AbortTx(t, r.error); } else { Continue(t, InsertToEntry, tx.result.(fromEntry := r.row)); }
      case InsertToEntry =>
        var r := CreateEntry(t, a.to, a.amount);
        if r.Err? { AbortTx(t, r.error); } else { Continue(t, AddFirst, tx.result.(toEntry := r.row)); }
    }

    method RunAddStatement(t: nat)
      requires t < |txs| && (txs[t].pc.AddFirst? || txs[t].pc.AddSecond?)
      modifies this`txs
      ensures txs == old(txs)[t := RunStatement(Tables(), State().seqs, old(txs)[t])]
    {
      var tx := txs[t];
      var a := tx.args.transfer;
      var first := tx.pc.AddFirst?;
      var next := if first then AddSecond else if tx.args.claim.Some? then Complete else Commit;
      var r: Reply<Account>;
      if first {
        r := AddAccountBalance(t, FirstId(a), FirstAmount(a));
      } else {
        r := AddAccountBalance(t, SecondId(a), SecondAmount(a));
      }
      if r.Err? {
        AbortTx(t, r.error);
      } else if first == (a.from < a.to) {
        Continue(t, next, tx.result.(fromAccount := r.row));
      } else {
        Continue(t, next, tx.result.(toAccount := r.row));
      }
    }

    /** Transaction t makes its next call, or goes on waiting for the row it needs. */
    method Next(t: nat)
      modifies this
      ensures State() == Step(old(State()), Statement(t))
    {
      if t >= |txs| || Blocked(State(), t) {
        return;
      }
      var tx := txs[t];
      match tx.pc
      case Begin => Continue(t, if tx.args.claim.Some? then Claim else InsertTransfer, tx.result);
      case Claim => RunKeyStatement(t);
      case Complete => RunKeyStatement(t);
      case AddFirst => RunAddStatement(t);
      case AddSecond => RunAddStatement(t);
      case Commit => CommitPending(t, true);
      case RollBack(e) => Continue(t, Done(Failed(e, true)), tx.result);
      case Done(_) => assert txs == txs[t := tx];
      case _ => RunInsertStatement(t);
    }

    /** Transaction t's current call fails from outside. */
    method Break(t: nat)
      modifies this`txs
      ensures State() == Step(old(State()), Interrupt(t))
    {
      if t >= |txs| {
        return;
      }
      match txs[t].pc
      case Done(_) => assert txs == txs[t := txs[t]];
      case RollBack(e) => Continue(t, Done(Failed(e, false)), txs[t].result);
      case Begin => Continue(t, Done(Failed(Interrupted, true)), txs[t].result);
      case Commit => txs := txs[t := txs[t].(pc := Done(Failed(Interrupted, true)), writes := NO_ROWS)];
      case _ => AbortTx(t, Interrupted);
    }

    /** Any interleaving of any transactions: from a database in use it leaves the tables that
        its committed events, one at a time, leave in the reference. */
    method Run(schedule: seq<Action>)
      modifies this
      ensures State() == Exec(old(State()), schedule)
      ensures Initial(old(State())) ==>
        && LegalHistory(users, old(Tables()), History(old(State()), schedule))
        && Tables() == Replay(users, old(Tables()), History(old(State()), schedule))
    {
      var n := 0;
      while n < |schedule|
        invariant 0 <= n <= |schedule|
        invariant State() == Exec(old(State()), schedule[..n])
      {
        match schedule[n] {
          case Statement(t) => Next(t);
          case Interrupt(t) => Break(t);
          case LoseAck(t) =>
            if t < |txs| && txs[t].pc.Commit? {
              CommitPending(t, false);
            }
          case OpenAccount(owner, currency) => var _ := CreateAccount(owner, currency);
        }
        ExecSnoc(old(State()), schedule[..n], schedule[n]);
        assert schedule[..n + 1] == schedule[..n] + [schedule[n]];
        n := n + 1;
      }
      assert schedule[..n] == schedule;
      if Initial(old(State())) {
        CommitOrderSerializable(old(State()), schedule);
      }
    }

    // ---------- one call from beginning to end ----------
    // What a call does when no other transaction holds a row. How calls wait for one another
    // is what Next and Run are about.

    /** addMoney. */
    method AddMoney(t: nat, accountId1: Int64, amount1: Int64, accountId2: Int64, amount2: Int64)
      returns (account1: Account, account2: Account, err: Option<Error>)
      requires t < |txs|
      modifies this`txs
      ensures |txs| == |old(txs)| && forall u :: 0 <= u < |txs| && u != t ==> txs[u] == old(txs)[u]
      ensures var own := old(txs)[t].writes;
        match TransferStore.AddAccountBalance(accounts, own.accounts, accountId1, amount1)
        case Err(e) => err == Some(e) && txs == old(txs)
        case Row(row1) =>
          var own1 := own.accounts[accountId1 := row1];
          match TransferStore.AddAccountBalance(accounts, own1, accountId2, amount2)
          case Err(e) => err == Some(e) && txs[t] == old(txs)[t].(writes := own.(accounts := own1))
          case Row(row2) =>
            && err == None && account1 == row1 && account2 == row2
            && txs[t] == old(txs)[t].(writes := own.(accounts := own1[accountId2 := row2]))
    {
      account1, account2, err := ZERO_RESULT.fromAccount, ZERO_RESULT.toAccount, None;
      var r := AddAccountBalance(t, accountId1, amount1);
      if r.Err? {
        err := Some(r.error);
        return;
      }
      account1 := r.row;
      r := AddAccountBalance(t, accountId2, amount2);
      if r.Err? {
        err := Some(r.error);
        return;
      }
      account2 := r.row;
    }

    /** The two ledger entries of a transfer. */
    method EntryRows(t: nat, arg: TransferArgs) returns (fromEntry: Entry, toEntry: Entry, err: Option<Error>)
      requires t < |txs|
      modifies this`txs, this`nextEntry
      ensures |txs| == |old(txs)| && forall u :: 0 <= u < |txs| && u != t ==> txs[u] == old(txs)[u]
      ensures err == if AccountsExist(Tables(), arg) then None else Some(ForeignKeyViolation)
      ensures err.None? ==>
        && fromEntry == Entry(old(nextEntry), arg.from, Negate(arg.amount))
        && toEntry == Entry(old(nextEntry) + 1, arg.to, arg.amount)
        && txs[t].writes == old(txs)[t].writes.(entries :=
             old(txs)[t].writes.entries[fromEntry.id := fromEntry][toEntry.id := toEntry])
    {
      fromEntry, toEntry, err := ZERO_RESULT.fromEntry, ZERO_RESULT.toEntry, None;
      var entry := CreateEntry(t, arg.from, Negate(arg.amount));
      if entry.Err? {
        err := Some(entry.error);
        return;
      }
      fromEntry := entry.row;
      entry := CreateEntry(t, arg.to, arg.amount);
      if entry.Err? {
        err := Some(entry.error);
        return;
      }
      toEntry := entry.row;
    }

    /** The two branches at the end of transferTx: either way it is a debit and a credit. */
    method UpdateBalances(t: nat, arg: TransferArgs)
      returns (fromAccount: Account, toAccount: Account, err: Option<Error>)
      requires t < |txs| && AccountsFit(accounts, nextAccount) && AccountsExist(Tables(), arg)
      requires txs[t].writes.accounts == map[]
      modifies this`txs
      ensures |txs| == |old(txs)| && forall u :: 0 <= u < |txs| && u != t ==> txs[u] == old(txs)[u]
      ensures err.None? <==> Affordable(accounts, arg)
      ensures err != Some(UniqueViolation) && err != Some(ForeignKeyViolation)
      ensures Proper(arg) && err.Some? ==> err == Some(FirstFailure(accounts, arg))
      ensures err.None? ==>
        && fromAccount == Debited(accounts, arg) && toAccount == Credited(accounts, arg)
        && accounts + txs[t].writes.accounts == Moved(accounts, arg)
        && txs[t].writes == old(txs)[t].writes.(accounts := txs[t].writes.accounts)
    {
      if arg.from < arg.to {
        fromAccount, toAccount, err := AddMoney(t, arg.from, Negate(arg.amount), arg.to, arg.amount);
      } else {
        toAccount, fromAccount, err := AddMoney(t, arg.to, arg.amount, arg.from, Negate(arg.amount));
      }
    }

    /** transferTx: the rows it leaves pending are those of a direct debit and credit, whichever
        account is updated first. */
    method TransferRows(t: nat, arg: TransferArgs) returns (result: TransferResult, err: Option<Error>)
      requires t < |txs| && WellFormed(Tables(), State().seqs)
      requires txs[t].writes.accounts == map[] && txs[t].writes.transfers == map[] && txs[t].writes.entries == map[]
      modifies this`txs, this`nextTransfer, this`nextEntry
      ensures |txs| == |old(txs)| && forall u :: 0 <= u < |txs| && u != t ==> txs[u] == old(txs)[u]
      ensures err.None? <==> AccountsExist(Tables(), arg) && Affordable(accounts, arg)
      ensures err == Some(ForeignKeyViolation) <==> !AccountsExist(Tables(), arg)
      ensures err != Some(UniqueViolation)
      ensures Proper(arg) && AccountsExist(Tables(), arg) && !Affordable(accounts, arg) ==>
        err == Some(FirstFailure(accounts, arg))
      ensures err.None? ==>
        && result == Receipt(accounts, arg, old(nextTransfer), old(nextEntry), old(nextEntry) + 1)
        && accounts + txs[t].writes.accounts == Moved(accounts, arg)
        && txs[t].writes.transfers == map[result.transfer.id := result.transfer]
        && txs[t].writes.entries == map[result.fromEntry.id := result.fromEntry, result.toEntry.id := result.toEntry]
        && txs[t].writes.keys == old(txs)[t].writes.keys
    {
      result, err := ZERO_RESULT, None;
      var transfer := CreateTransfer(t, arg);
      if transfer.Err? {
        err := Some(transfer.error);
        return;
      }
      result := result.(transfer := transfer.row);

      var fromEntry, toEntry;
      fromEntry, toEntry, err := EntryRows(t, arg);
      if err.Some? {
        return;
      }
      result := result.(fromEntry := fromEntry, toEntry := toEntry);

      var fromAccount, toAccount;
      fromAccount, toAccount, err := UpdateBalances(t, arg);
      result := result.(fromAccount := fromAccount, toAccount := toAccount);
    }

    /** CompleteIdempotencyKey, for a transaction that claimed one. */
    method Respond(t: nat, claim: Option<Claim>, result: TransferResult) returns (err: Option<Error>)
      requires t < |txs|
      requires txs[t].writes.keys == if claim.Some? then map[claim.value.id := KeyRow(claim.value.requestHash, Empty)] else map[]
      modifies this`txs
      ensures |txs| == |old(txs)| && forall u :: 0 <= u < |txs| && u != t ==> txs[u] == old(txs)[u]
      ensures err == None
      ensures txs[t].writes == old(txs)[t].writes.(keys :=
        if claim.Some? then map[claim.value.id := KeyRow(claim.value.requestHash, Json(result))] else map[])
    {
      err := None;
      if claim.Some? {
        var r := CompleteIdempotencyKey(t, claim.value.id, Json(result));
        assert r.Row?;
      }
    }

    /** The function execTx is given: claim first, then transfer, then complete the claim. */
    method Body(t: nat, args: TxArgs) returns (result: TransferResult, err: Option<Error>)
      requires t < |txs| && txs[t] == NewTx(args) && WellFormed(Tables(), State().seqs)
      modifies this`txs, this`nextTransfer, this`nextEntry
      ensures |txs| == |old(txs)| && forall u :: 0 <= u < |txs| && u != t ==> txs[u] == old(txs)[u]
      ensures err.None? <==> Admissible(Tables(), args)
      ensures err == Some(UniqueViolation) <==> !Unclaimed(keys, args.claim)
      ensures Unaffordable(Tables(), args) ==> err == Some(FirstFailure(accounts, args.transfer))
      ensures err.None? ==>
        && result == Receipt(accounts, args.transfer, old(nextTransfer), old(nextEntry), old(nextEntry) + 1)
        && Overlay(Tables(), txs[t].writes) == Booked(Tables(), args, result)
    {
      result, err := ZERO_RESULT, None;
      if args.claim.Some? {
        var r := CreateIdempotencyKey(t, args.claim.value.id, args.claim.value.requestHash);
        if r.Err? {
          err := Some(r.error);
          return;
        }
      }
      result, err := TransferRows(t, args.transfer);
      if err.Some? {
        return;
      }
      err := Respond(t, args.claim, result);
      PendingIsBooked(Tables(), txs[t].writes, args, result);
    }

    /** execTx around the body of TransferTx (no claim) or IdempotentTransferTx (a claim). It
        succeeds exactly when the direct transfer is possible and the key is unspent; then it
        has booked that transfer and stored its response, and otherwise it has changed no row. */
    method ExecTx(args: TxArgs) returns (result: TransferResult, err: Option<Error>)
      requires WellFormed(Tables(), State().seqs)
      requires forall u :: 0 <= u < |txs| ==> txs[u].writes == NO_ROWS
      modifies this
      ensures err.None? <==> Admissible(old(Tables()), args)
      ensures err == Some(UniqueViolation) <==> !Unclaimed(old(keys), args.claim)
      ensures Unaffordable(old(Tables()), args) ==> err == Some(FirstFailure(old(accounts), args.transfer))
      ensures err.None? ==>
        && result == Receipt(old(accounts), args.transfer, old(nextTransfer), old(nextEntry), old(nextEntry) + 1)
        && Tables() == Booked(old(Tables()), args, result)
      ensures err.Some? ==> Tables() == old(Tables())
      ensures |txs| == |old(txs)| + 1 && txs[..|txs| - 1] == old(txs) && txs[|txs| - 1].writes == NO_ROWS
      ensures nextAccount == old(nextAccount)
    {
      var t := |txs|;
      txs := txs + [NewTx(args)];
      result, err := Body(t, args);
      if err.Some? {
        AbortTx(t, err.value);
        Continue(t, Done(Failed(err.value, true)), result);
      } else {
        CommitPending(t, true);
      }
    }

    method TransferTx(arg: TransferArgs) returns (result: TransferResult, err: Option<Error>)
      requires WellFormed(Tables(), State().seqs)
      requires forall u :: 0 <= u < |txs| ==> txs[u].writes == NO_ROWS
      modifies this
      ensures err.None? <==> AccountsExist(old(Tables()), arg) && Affordable(old(accounts), arg)
      ensures err.None? ==> Tables() == Booked(old(Tables()), TxArgs(arg, None), result)
      ensures err.Some? ==> Tables() == old(Tables())
    {
      result, err := ExecTx(TxArgs(arg, None));
    }

    method IdempotentTransferTx(arg: TransferArgs, claim: Claim) returns (result: TransferResult, err: Option<Error>)
      requires WellFormed(Tables(), State().seqs)
      requires forall u :: 0 <= u < |txs| ==> txs[u].writes == NO_ROWS
      modifies this
      ensures err.None? <==> claim.id !in old(keys) && AccountsExist(old(Tables()), arg) && Affordable(old(accounts), arg)
      ensures err.None? ==> Tables() == Booked(old(Tables()), TxArgs(arg, Some(claim)), result)
      ensures err.None? ==> claim.id in keys && keys[claim.id] == KeyRow(claim.requestHash, Json(result))
      ensures err.Some? ==> Tables() == old(Tables())
    {
      result, err := ExecTx(TxArgs(arg, Some(claim)));
    }
  }
}
