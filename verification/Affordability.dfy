/** Exactly the affordable transfers win, in every complete schedule. */
module Affordability {
  import opened Schema
  import opened TransferStore
  import opened StoreInvariant
  import opened Serial
  import opened Serializability
  import opened Progress
  import opened LockOrder
  import opened Idempotency

  // ---------- how many times an amount goes into a balance ----------

  lemma NextMultiple(w: nat, amount: int)
    ensures (w + 1) * amount == w * amount + amount
  {}

  lemma MultiplesAreOrdered(x: int, y: int, amount: int)
    requires x <= y && amount > 0
    ensures x * amount <= y * amount
  {}

  lemma {:induction false} AtLeast(b: int, amount: int, w: nat)
    requires amount > 0 && 0 <= b - w * amount
    ensures w <= b / amount
  {
    var q := b / amount;
    assert b == q * amount + b % amount;
    if q < w {
      MultiplesAreOrdered(q + 1, w, amount);
    }
  }

  lemma {:induction false} Quotient(b: int, amount: int, w: nat)
    requires amount > 0 && 0 <= b - w * amount < amount
    ensures b / amount == w
  {
    AtLeast(b, amount, w);
    var q := b / amount;
    assert b == q * amount + b % amount;
    if q > w {
      MultiplesAreOrdered(w + 1, q, amount);
    }
  }

  // ---------- counting commits ----------

  function Wins(txs: seq<Tx>): nat {
    if txs == [] then 0 else Wins(txs[..|txs| - 1]) + if Won(txs[|txs| - 1]) then 1 else 0
  }

  lemma {:induction false} WinsUpdate(txs: seq<Tx>, t: nat, tx: Tx)
    requires t < |txs|
    ensures Wins(txs[t := tx]) == Wins(txs) - (if Won(txs[t]) then 1 else 0) + if Won(tx) then 1 else 0
  {
    var n := |txs| - 1;
    if t == n {
      assert txs[t := tx][..n] == txs[..n];
    } else {
      assert txs[t := tx][..n] == txs[..n][t := tx];
      WinsUpdate(txs[..n], t, tx);
    }
  }

  /** Everyone has won, or someone has not. */
  lemma {:induction false} WinsBound(txs: seq<Tx>)
    ensures Wins(txs) <= |txs|
    ensures Wins(txs) < |txs| <==> exists t :: 0 <= t < |txs| && !Won(txs[t])
  {
    if txs != [] {
      var n := |txs| - 1;
      WinsBound(txs[..n]);
      if t :| 0 <= t < n && !Won(txs[..n][t]) {
        assert !Won(txs[t]);
      }
      if t :| 0 <= t < |txs| && !Won(txs[t]) {
        if t < n {
          assert !Won(txs[..n][t]);
        }
      }
    }
  }

  // ---------- the setting ----------

  predicate DifferentKeys(x: TxArgs, y: TxArgs) {
    x.claim.Some? && y.claim.Some? ==> x.claim.value.id != y.claim.value.id
  }

  /** min(n, b / amount). */
  function Winners(n: nat, b: int, amount: int): int
    requires amount > 0
  {
    if n <= b / amount then n else b / amount
  }

  /** The transaction moves the amount out of the source to another account that has room for
      as many of them as the source can pay; its key, if there is one, is unused. */
  ghost predicate Draws(c: Tables, args: TxArgs, source: int, amount: int, n: nat)
    requires amount > 0 && source in c.accounts
  {
    var a, b := args.transfer, c.accounts[source].balance;
    && Unclaimed(c.keys, args.claim) && a.from == source && a.amount == amount
    && a.to != source && a.to in c.accounts
    && c.accounts[a.to].balance + Winners(n, b, amount) * amount <= INT64_MAX
  }

  /** Every transaction draws the same positive amount on one account; no two have one key. */
  ghost predicate SameSource(s: Db, source: int, amount: int) {
    && amount > 0 && source in s.committed.accounts
    && (forall t :: 0 <= t < |s.txs| ==> Draws(s.committed, s.txs[t].args, source, amount, |s.txs|))
    && (forall t, u :: 0 <= t < |s.txs| && 0 <= u < |s.txs| && t != u ==> DifferentKeys(s.txs[t].args, s.txs[u].args))
  }

  ghost predicate NoInterruption(schedule: seq<Action>) {
    forall i :: 0 <= i < |schedule| ==> !schedule[i].Interrupt?
  }

  // ---------- what every state of such a run satisfies ----------

  /** After w commits the source has paid w amounts, and no other account has got more. */
  ghost predicate PaidOut(c: map<int, Account>, c': map<int, Account>, source: int, amount: int, w: nat) {
    && source in c && source in c' && c'[source].balance == c[source].balance - w * amount
    && (forall id :: id in c && id != source ==>
          id in c' && c'[id].balance <= c[id].balance + w * amount)
  }

  /** A transaction that has failed has met a balance that did not allow its update, and by
      then the source could not pay it any more. */
  ghost predicate FailsShort(m: Db, t: int, source: int, amount: int)
    requires 0 <= t < |m.txs| && source in m.committed.accounts
  {
    var pc := m.txs[t].pc;
    HasFailed(pc) ==>
      (FailedBy(pc, BalanceCheckViolation) || FailedBy(pc, OutOfRange)) && m.committed.accounts[source].balance < amount
  }

  ghost predicate Spent(s: Db, m: Db, source: int, amount: int) {
    && PaidOut(s.committed.accounts, m.committed.accounts, source, amount, Wins(m.txs))
    && (forall t :: 0 <= t < |m.txs| ==> FailsShort(m, t, source, amount))
  }

  /** With fewer than min(n, b / amount) amounts paid there is room for one more. */
  lemma {:induction false} RoomForOneMore(w: nat, n: nat, b: int, amount: int, balance: int)
    requires amount > 0 && w < n && balance + Winners(n, b, amount) * amount <= INT64_MAX
    requires amount <= b - w * amount
    ensures balance + w * amount + amount <= INT64_MAX
  {
    NextMultiple(w, amount);
    AtLeast(b, amount, w + 1);
    MultiplesAreOrdered(w + 1, Winners(n, b, amount), amount);
  }

  /** A credit that finds no room comes after the source has run dry. */
  lemma {:induction false} NoRoomMeansShort(s: Db, m: Db, t: nat, source: int, amount: int)
    requires Initial(s) && SameSource(s, source, amount)
    requires PaidOut(s.committed.accounts, m.committed.accounts, source, amount, Wins(m.txs))
    requires |m.txs| == |s.txs| && t < |m.txs| && !Won(m.txs[t])
    requires var to := s.txs[t].args.transfer.to;
      to in m.committed.accounts && m.committed.accounts[to].balance + amount > INT64_MAX
    ensures source in m.committed.accounts && m.committed.accounts[source].balance < amount
  {
    WinsBound(m.txs);
    var c, to := s.committed.accounts, s.txs[t].args.transfer.to;
    assert Draws(s.committed, s.txs[t].args, source, amount, |s.txs|);
    if m.committed.accounts[source].balance >= amount {
      RoomForOneMore(Wins(m.txs), |s.txs|, c[source].balance, amount, c[to].balance);
    }
  }

  lemma StatementFails(c: Tables, q: Sequences, tx: Tx)
    requires Shape(c, q, tx) && !HasFailed(tx.pc) && !tx.pc.Done? && HasFailed(RunStatement(c, q, tx).pc)
    requires tx.pc.Claim? ==> Unclaimed(c.keys, tx.args.claim)
    requires AccountsExist(c, tx.args.transfer)
    ensures tx.pc.AddFirst? || tx.pc.AddSecond?
  {}

  /** A statement other than COMMIT fails only at a balance update, once the source is short. */
  lemma {:induction false} StatementSpends(s: Db, m: Db, t: nat, source: int, amount: int)
    requires Initial(s) && SameSource(s, source, amount) && Inv(m) && Spent(s, m, source, amount)
    requires |m.txs| == |s.txs| && t < |m.txs| && m.txs[t].args == s.txs[t].args
    requires !Blocked(m, t) && !m.txs[t].pc.Commit?
    requires m.txs[t].pc.Claim? ==> Unclaimed(m.committed.keys, s.txs[t].args.claim)
    ensures FailsShort(Step(m, Statement(t)), t, source, amount)
  {
    var tx, m' := m.txs[t], Step(m, Statement(t));
    assert Draws(s.committed, s.txs[t].args, source, amount, |s.txs|);
    assert FailsShort(m, t, source, amount);
    if HasFailed(m'.txs[t].pc) && !HasFailed(tx.pc) {
      StatementFails(m.committed, m.seqs, tx);
      UpdatesAreExact(m, t);
      if AtCredit(tx) {
        NoRoomMeansShort(s, m, t, source, amount);
      }
    }
  }

  lemma CommittedFails(m: Db, t: nat, acknowledged: bool, source: int, amount: int, u: nat)
    requires t < |m.txs| && u < |m.txs| && m.txs[t].pc.Commit? && source in m.committed.accounts
    requires FailsShort(m, u, source, amount)
    requires source in CommitTx(m, t, acknowledged).committed.accounts
    requires CommitTx(m, t, acknowledged).committed.accounts[source].balance <= m.committed.accounts[source].balance
    ensures FailsShort(CommitTx(m, t, acknowledged), u, source, amount)
  {}

  lemma CommitMoves(m: Db, t: nat, acknowledged: bool, source: int, amount: int)
    requires t < |m.txs| && m.txs[t].pc.Commit? && AccountShape(m.committed, m.txs[t])
    requires var a := m.txs[t].args.transfer; a.from == source && a.to != source && a.amount == amount > 0
    ensures var c, to := m.committed.accounts, m.txs[t].args.transfer.to;
      && source in c && to in c
      && CommitTx(m, t, acknowledged).committed.accounts ==
           c[to := c[to].(balance := c[to].balance + amount)][source := c[source].(balance := c[source].balance - amount)]
  {
    LockOrderRows(m.committed, m.txs[t]);
  }

  lemma PaysOnce(c: map<int, Account>, d: map<int, Account>, to: int, source: int, amount: int, w: nat)
    requires PaidOut(c, d, source, amount, w) && amount > 0 && to in d && to != source
    ensures PaidOut(c,
      d[to := d[to].(balance := d[to].balance + amount)][source := d[source].(balance := d[source].balance - amount)],
      source, amount, w + 1)
  {
    assert (w + 1) * amount == w * amount + amount;
  }

  lemma {:induction false} CommitWins(m: Db, t: nat, acknowledged: bool)
    requires t < |m.txs| && m.txs[t].pc.Commit?
    ensures Wins(CommitTx(m, t, acknowledged).txs) == Wins(m.txs) + 1
  {
    WinsUpdate(m.txs, t, CommitTx(m, t, acknowledged).txs[t]);
  }

  lemma {:induction false} CommitPays(c: map<int, Account>, m: Db, t: nat, acknowledged: bool, source: int, amount: int)
    requires PaidOut(c, m.committed.accounts, source, amount, Wins(m.txs))
    requires t < |m.txs| && m.txs[t].pc.Commit? && AccountShape(m.committed, m.txs[t])
    requires var a := m.txs[t].args.transfer; a.from == source && a.to != source && a.amount == amount > 0
    ensures var m' := CommitTx(m, t, acknowledged);
      && PaidOut(c, m'.committed.accounts, source, amount, Wins(m'.txs))
      && m'.committed.accounts[source].balance <= m.committed.accounts[source].balance
  {
    CommitMoves(m, t, acknowledged, source, amount);
    CommitWins(m, t, acknowledged);
    PaysOnce(c, m.committed.accounts, m.txs[t].args.transfer.to, source, amount, Wins(m.txs));
  }

  lemma {:induction false} CommitSpends(s: Db, m: Db, t: nat, acknowledged: bool, source: int, amount: int)
    requires SameSource(s, source, amount) && Inv(m) && Spent(s, m, source, amount)
    requires |m.txs| == |s.txs| && t < |m.txs| && m.txs[t].args == s.txs[t].args
    requires m.txs[t].pc.Commit?
    ensures Spent(s, CommitTx(m, t, acknowledged), source, amount)
  {
    assert Draws(s.committed, s.txs[t].args, source, amount, |s.txs|);
    assert Shape(m.committed, m.seqs, m.txs[t]);
    CommitPays(s.committed.accounts, m, t, acknowledged, source, amount);
    forall u | 0 <= u < |CommitTx(m, t, acknowledged).txs|
      ensures FailsShort(CommitTx(m, t, acknowledged), u, source, amount)
    {
      CommittedFails(m, t, acknowledged, source, amount, u);
    }
  }

  lemma OpenSpends(s: Db, m: Db, owner: string, currency: string, source: int, amount: int)
    requires Inv(m) && Spent(s, m, source, amount)
    ensures Spent(s, OpenStep(m, owner, currency), source, amount)
  {
    var m' := OpenStep(m, owner, currency);
    forall u | 0 <= u < |m'.txs| ensures FailsShort(m', u, source, amount) {
      assert FailsShort(m, u, source, amount);
    }
  }

  lemma WaitingSpends(s: Db, m: Db, t: nat, source: int, amount: int)
    requires Spent(s, m, source, amount) && t < |m.txs| && !Blocked(m, t) && !m.txs[t].pc.Commit?
    requires FailsShort(Step(m, Statement(t)), t, source, amount)
    ensures Spent(s, Step(m, Statement(t)), source, amount)
  {
    var m' := Step(m, Statement(t));
    WinsUpdate(m.txs, t, m'.txs[t]);
    assert m'.txs == m.txs[t := m'.txs[t]];
    assert Wins(m'.txs) == Wins(m.txs);
    forall u | 0 <= u < |m'.txs| ensures FailsShort(m', u, source, amount) {
      assert FailsShort(m, u, source, amount);
    }
  }

  lemma {:induction false} StepSpends(s: Db, m: Db, a: Action, source: int, amount: int)
    requires Initial(s) && SameSource(s, source, amount) && Inv(m) && Spent(s, m, source, amount)
    requires |m.txs| == |s.txs| && forall t :: 0 <= t < |m.txs| ==> m.txs[t].args == s.txs[t].args
    requires !a.Interrupt?
    requires forall t :: 0 <= t < |m.txs| && m.txs[t].pc.Claim? ==> Unclaimed(m.committed.keys, s.txs[t].args.claim)
    ensures Spent(s, Step(m, a), source, amount)
  {
    match a
    case Statement(t) =>
      if t < |m.txs| && !Blocked(m, t) {
        if m.txs[t].pc.Commit? {
          CommitSpends(s, m, t, true, source, amount);
        } else {
          StatementSpends(s, m, t, source, amount);
          WaitingSpends(s, m, t, source, amount);
        }
      }
    case LoseAck(t) =>
      if t < |m.txs| && m.txs[t].pc.Commit? {
        CommitSpends(s, m, t, false, source, amount);
      }
    case OpenAccount(owner, currency) =>
      OpenSpends(s, m, owner, currency, source, amount);
  }

  /** Nobody else spends the key of a transaction that is about to claim it. */
  lemma KeyStillFree(s: Db, schedule: seq<Action>, t: nat, source: int, amount: int)
    requires Initial(s) && SameSource(s, source, amount)
    requires t < |s.txs| && t < |Exec(s, schedule).txs| && Exec(s, schedule).txs[t].pc.Claim?
    ensures Unclaimed(Exec(s, schedule).committed.keys, s.txs[t].args.claim)
  {
    assert Draws(s.committed, s.txs[t].args, source, amount, |s.txs|);
    if s.txs[t].args.claim.Some? {
      var k := s.txs[t].args.claim.value.id;
      CommitOrderSerializable(s, schedule);
      KeyRowsOfHistory(s.users, s.committed, History(s, schedule), k);
      forall w: nat | w < |s.txs| && Attempts(s.txs[w], k) ensures w == t {
        assert w != t ==> DifferentKeys(s.txs[w].args, s.txs[t].args);
      }
      if k in Exec(s, schedule).committed.keys {
        var i :| 0 <= i < |History(s, schedule)| && Spends(History(s, schedule)[i], k);
        var w := WinnerOfEvent(s, schedule, i, k);
        assert false;
      }
    }
  }

  lemma {:induction false} WinsNone(txs: seq<Tx>)
    requires forall t :: 0 <= t < |txs| ==> txs[t].pc.Begin?
    ensures Wins(txs) == 0
  {
    if txs != [] {
      WinsNone(txs[..|txs| - 1]);
    }
  }

  lemma {:induction false} RunSpends(s: Db, schedule: seq<Action>, source: int, amount: int)
    requires Initial(s) && SameSource(s, source, amount) && NoInterruption(schedule)
    ensures Spent(s, Exec(s, schedule), source, amount)
  {
    if schedule == [] {
      forall t | 0 <= t < |s.txs| ensures s.txs[t].pc.Begin? {
        assert s.txs[t] == NewTx(s.txs[t].args);
      }
      WinsNone(s.txs);
    } else {
      var before, a := schedule[..|schedule| - 1], schedule[|schedule| - 1];
      RunSpends(s, before, source, amount);
      ExecInv(s, before);
      ExecTxs(s, before);
      forall t | 0 <= t < |s.txs| && Exec(s, before).txs[t].pc.Claim?
        ensures Unclaimed(Exec(s, before).committed.keys, s.txs[t].args.claim)
      {
        KeyStillFree(s, before, t, source, amount);
      }
      StepSpends(s, Exec(s, before), a, source, amount);
    }
  }

  /** Exact affordability: of N concurrent transfers of one amount out of an account holding B,
      exactly min(N, B / amount) commit in every schedule that runs them all to their end, and
      the account is left with B minus that many amounts. */
  lemma {:induction false} ExactlyTheAffordableWin(s: Db, schedule: seq<Action>, source: int, amount: int)
    requires Initial(s) && SameSource(s, source, amount) && NoInterruption(schedule)
    requires AllDone(Exec(s, schedule))
    ensures source in s.committed.accounts && source in Exec(s, schedule).committed.accounts
    ensures var b := s.committed.accounts[source].balance;
      var wins := Winners(|s.txs|, b, amount);
      && Wins(Exec(s, schedule).txs) == wins
      && Exec(s, schedule).committed.accounts[source].balance == b - wins * amount
  {
    var m := Exec(s, schedule);
    RunSpends(s, schedule, source, amount);
    ExecInv(s, schedule);
    ExecTxs(s, schedule);
    WinsBound(m.txs);
    var w, b := Wins(m.txs), s.committed.accounts[source].balance;
    if w < |m.txs| {
      var t :| 0 <= t < |m.txs| && !Won(m.txs[t]);
      assert FailsShort(m, t, source, amount);
      Quotient(b, amount, w);
    } else {
      AtLeast(b, amount, w);
    }
  }
}
