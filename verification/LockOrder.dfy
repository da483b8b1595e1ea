/** Updating the lower account id first decides who waits for whom, and nothing else. */
module LockOrder {
  import opened Schema
  import opened TransferStore
  import opened StoreInvariant
  import opened Serial
  import opened Serializability
  import opened Progress

  // ---------- a transaction with the database to itself ----------

  /** No other transaction holds anything. */
  ghost predicate Quiet(s: Db, t: nat) {
    forall u :: 0 <= u < |s.txs| && u != t ==> s.txs[u].writes == NO_ROWS
  }

  /** t runs n statements in a row. */
  function RunAlone(s: Db, t: nat, n: nat): Db
    decreases n
  {
    if n == 0 then s else RunAlone(StatementStep(s, t), t, n - 1)
  }

  /** What is still to be decided is decided in t's favour. */
  predicate WillCommit(c: Tables, tx: Tx) {
    && !tx.pc.RollBack? && !tx.pc.Done?
    && (tx.pc.Begin? || tx.pc.Claim? ==> Unclaimed(c.keys, tx.args.claim))
    && AccountsExist(c, tx.args.transfer)
    && Affordable(c.accounts, tx.args.transfer)
  }

  lemma StatementDecides(c: Tables, q: Sequences, tx: Tx)
    requires Shape(c, q, tx) && !tx.pc.Commit? && !tx.pc.Done?
    ensures WillCommit(c, RunStatement(c, q, tx)) == WillCommit(c, tx)
  {}

  lemma LocalStatement(c: Tables, q: Sequences, tx: Tx)
    requires !tx.pc.Commit? && !tx.pc.RollBack? && !tx.pc.Done?
    ensures RunStatement(c, q, tx).args == tx.args && !RunStatement(c, q, tx).pc.Done?
    ensures Remaining(RunStatement(c, q, tx).pc) < Remaining(tx.pc)
  {}

  lemma CommitWasDecided(c: Tables, q: Sequences, tx: Tx)
    requires Shape(c, q, tx) && tx.pc.Commit?
    ensures WillCommit(c, tx)
  {
    LockOrderRows(c, tx);
  }

  /** How a run that began on these tables ends for t: everything is booked, or nothing is. */
  ghost predicate EndsAs(c: Tables, args: TxArgs, t: nat, commits: bool, end: Db) {
    && t < |end.txs| && end.txs[t].pc.Done? && end.txs[t].args == args
    && (commits <==> end.txs[t].pc == Done(Committed(true)))
    && (if commits then
          var r := end.txs[t].result;
          && AccountsExist(c, args.transfer)
          && r == Receipt(c.accounts, args.transfer, r.transfer.id, r.fromEntry.id, r.toEntry.id)
          && end.committed == Booked(c, args, r)
        else end.committed == c)
  }

  lemma {:induction false} LoneStatement(s: Db, t: nat)
    requires Inv(s) && Quiet(s, t) && t < |s.txs| && !s.txs[t].pc.Commit?
    ensures var s' := StatementStep(s, t);
      && s' == s.(seqs := Draw(s.seqs, s.txs[t].pc), txs := s.txs[t := RunStatement(s.committed, s.seqs, s.txs[t])])
      && Quiet(s', t) && Inv(s')
  {
    StepInv(s, Statement(t));
  }

  lemma {:induction false} DoneStays(s: Db, t: nat, n: nat)
    requires t < |s.txs| && s.txs[t].pc.Done?
    ensures RunAlone(s, t, n) == s
    decreases n
  {
    if n > 0 {
      assert s.txs[t := s.txs[t]] == s.txs;
      DoneStays(s, t, n - 1);
    }
  }

  lemma RunEnds(s: Db, t: nat, n: nat)
    requires n > 0 && t < |StatementStep(s, t).txs| && StatementStep(s, t).txs[t].pc.Done?
    ensures RunAlone(s, t, n) == StatementStep(s, t)
  {
    DoneStays(StatementStep(s, t), t, n - 1);
  }

  /** A lone transaction that has not come to its COMMIT: its next statement decides nothing new. */
  lemma {:induction false} LoneStatementDecides(s: Db, t: nat)
    requires Inv(s) && Quiet(s, t) && t < |s.txs|
    requires !s.txs[t].pc.Commit? && !s.txs[t].pc.RollBack? && !s.txs[t].pc.Done?
    ensures var s' := StatementStep(s, t);
      && Quiet(s', t) && Inv(s') && t < |s'.txs| && s'.committed == s.committed
      && s'.txs[t].args == s.txs[t].args && !s'.txs[t].pc.Done?
      && Remaining(s'.txs[t].pc) < Remaining(s.txs[t].pc)
      && WillCommit(s.committed, s'.txs[t]) == WillCommit(s.committed, s.txs[t])
  {
    LoneStatement(s, t);
    LocalStatement(s.committed, s.seqs, s.txs[t]);
    StatementDecides(s.committed, s.seqs, s.txs[t]);
  }

  lemma {:induction false} LoneCommit(s: Db, t: nat)
    requires Inv(s) && t < |s.txs| && s.txs[t].pc.Commit?
    ensures WillCommit(s.committed, s.txs[t])
    ensures t < |StatementStep(s, t).txs| && StatementStep(s, t).txs[t].pc.Done?
    ensures EndsAs(s.committed, s.txs[t].args, t, true, StatementStep(s, t))
  {
    CommitWasDecided(s.committed, s.seqs, s.txs[t]);
    CommitIsAdmissible(s.committed, s.seqs, s.txs[t]);
    CommitIsLegal(s.users, s.committed, s.seqs, s.txs[t], t);
    CommitIsUnblocked(s, t, Statement(t));
  }

  lemma {:induction false} LoneRollback(s: Db, t: nat)
    requires Inv(s) && Quiet(s, t) && t < |s.txs| && s.txs[t].pc.RollBack?
    ensures !WillCommit(s.committed, s.txs[t])
    ensures t < |StatementStep(s, t).txs| && StatementStep(s, t).txs[t].pc.Done?
    ensures EndsAs(s.committed, s.txs[t].args, t, false, StatementStep(s, t))
  {
    LoneStatement(s, t);
  }

  lemma {:induction false} LoneRun(s: Db, t: nat, n: nat)
    requires Inv(s) && Quiet(s, t) && t < |s.txs| && !s.txs[t].pc.Done? && Remaining(s.txs[t].pc) <= n
    ensures EndsAs(s.committed, s.txs[t].args, t, WillCommit(s.committed, s.txs[t]), RunAlone(s, t, n))
    decreases n
  {
    if s.txs[t].pc.Commit? {
      LoneCommit(s, t);
      RunEnds(s, t, n);
    } else if s.txs[t].pc.RollBack? {
      LoneRollback(s, t);
      RunEnds(s, t, n);
    } else {
      LoneStatementDecides(s, t);
      LoneRun(StatementStep(s, t), t, n - 1);
    }
  }

  /** Two accounts and an amount, as the handler passes them on. */
  predicate Proper(a: TransferArgs) {
    a.from != a.to && a.amount > 0
  }

  /** Lock ordering does not change meaning. With nothing else in its way a transfer, whichever
      id is lower, commits exactly when the direct debit and credit are possible and its key
      is unspent; then the tables and the result are those of the direct transfer, and
      otherwise the tables are as they were. For two accounts and a positive amount that is:
      exactly when both exist, the source holds the amount and the target has room for it. */
  lemma {:induction false} LockOrderIsInvisible(s: Db, schedule: seq<Action>, t: nat)
    requires Initial(s) && t < |Exec(s, schedule).txs| && Exec(s, schedule).txs[t].pc.Begin?
    requires Quiet(Exec(s, schedule), t)
    ensures var m := Exec(s, schedule);
      EndsAs(m.committed, m.txs[t].args, t, Admissible(m.committed, m.txs[t].args), RunAlone(m, t, 10))
    ensures var m := Exec(s, schedule);
      var args, c := m.txs[t].args, m.committed.accounts;
      var a := args.transfer;
      Proper(a) ==>
        (Admissible(m.committed, args) <==>
          && Unclaimed(m.committed.keys, args.claim)
          && a.from in c && a.to in c
          && a.amount <= c[a.from].balance
          && c[a.to].balance + a.amount <= INT64_MAX)
  {
    ExecInv(s, schedule);
    assert WellFormed(Exec(s, schedule).committed, Exec(s, schedule).seqs);
    LoneRun(Exec(s, schedule), t, 10);
  }

  // ---------- refusals are exact ----------

  /** t's next statement debits the source. */
  predicate AtDebit(tx: Tx) {
    if tx.args.transfer.from < tx.args.transfer.to then tx.pc.AddFirst? else tx.pc.AddSecond?
  }

  predicate AtCredit(tx: Tx) {
    if tx.args.transfer.from < tx.args.transfer.to then tx.pc.AddSecond? else tx.pc.AddFirst?
  }

  /** The two balance updates of an unblocked transfer look at the balances that are committed
      then, and fail exactly when those do not allow the update. */
  lemma UpdatesAreExact(s: Db, t: nat)
    requires Inv(s) && t < |s.txs| && !Blocked(s, t) && Proper(s.txs[t].args.transfer)
    ensures var a, c, pc := s.txs[t].args.transfer, s.committed.accounts, Step(s, Statement(t)).txs[t].pc;
      && (AtDebit(s.txs[t]) ==>
            && a.from in c
            && (if c[a.from].balance < a.amount then pc == RollBack(BalanceCheckViolation) else !pc.RollBack?))
      && (AtCredit(s.txs[t]) ==>
            && a.to in c
            && (if c[a.to].balance + a.amount > INT64_MAX then pc == RollBack(OutOfRange) else !pc.RollBack?))
  {
    assert Shape(s.committed, s.seqs, s.txs[t]);
    if s.txs[t].pc.AddFirst? || s.txs[t].pc.AddSecond? {
      var tx := s.txs[t];
      assert HasToEntry(tx.pc) && HasTransfer(tx.pc);
      assert WellFormed(s.committed, s.seqs);
    }
  }

  /** The transfer met this error. */
  predicate FailedBy(pc: Pc, e: Error) {
    || pc == RollBack(e)
    || (pc.Done? && pc.outcome.Failed? && pc.outcome.error == e)
  }

  /** t's next statement is the update that the balances do not allow. */
  predicate UpdateFails(s: Db, t: nat, e: Error)
    requires t < |s.txs|
  {
    var a, c := s.txs[t].args.transfer, s.committed.accounts;
    if e == BalanceCheckViolation then AtDebit(s.txs[t]) && a.from in c && c[a.from].balance < a.amount
    else AtCredit(s.txs[t]) && a.to in c && c[a.to].balance + a.amount > INT64_MAX
  }

  /** Only an update of its own leaves a transaction with one of these errors. */
  lemma {:induction false} ErrorArises(s: Db, a: Action, t: nat, e: Error)
    requires t < |s.txs| && t < |Step(s, a).txs| && (e == BalanceCheckViolation || e == OutOfRange)
    requires FailedBy(Step(s, a).txs[t].pc, e) && !FailedBy(s.txs[t].pc, e)
    ensures a == Statement(t) && !Blocked(s, t) && (s.txs[t].pc.AddFirst? || s.txs[t].pc.AddSecond?)
  {
    if !ActsOn(a, t) {
      StepOfAnother(s, a, t);
    }
  }

  lemma {:induction false} RefusedUpdate(s: Db, a: Action, t: nat, e: Error)
    requires Inv(s) && t < |s.txs| && t < |Step(s, a).txs| && Proper(s.txs[t].args.transfer)
    requires e == BalanceCheckViolation || e == OutOfRange
    requires FailedBy(Step(s, a).txs[t].pc, e) && !FailedBy(s.txs[t].pc, e)
    ensures a == Statement(t) && !Blocked(s, t) && UpdateFails(s, t, e)
  {
    ErrorArises(s, a, t, e);
    UpdatesAreExact(s, t);
  }

  /** No spurious refusal: whenever a transfer has been refused by the balance CHECK, or for the
      range of the column, there was one step of the run at which it was: its debit, with less
      than its amount on the source then, or its credit, with no room on the target then. */
  lemma {:induction false} NoSpuriousRefusal(s: Db, schedule: seq<Action>, t: nat, e: Error) returns (n: nat)
    requires Initial(s) && t < |s.txs| && Proper(s.txs[t].args.transfer)
    requires e == BalanceCheckViolation || e == OutOfRange
    requires t < |Exec(s, schedule).txs| && FailedBy(Exec(s, schedule).txs[t].pc, e)
    ensures n < |schedule| && schedule[n] == Statement(t) && t < |Exec(s, schedule[..n]).txs|
    ensures var m := Exec(s, schedule[..n]);
      m.txs[t].args == s.txs[t].args && !Blocked(m, t) && UpdateFails(m, t, e)
  {
    assert s.txs[t] == NewTx(s.txs[t].args);
    n := |schedule| - 1;
    var before, a := schedule[..n], schedule[n];
    ExecTxs(s, before);
    if FailedBy(Exec(s, before).txs[t].pc, e) {
      n := NoSpuriousRefusal(s, before, t, e);
      assert schedule[..n] == before[..n];
    } else {
      ExecInv(s, before);
      RefusedUpdate(Exec(s, before), a, t, e);
    }
  }
}
