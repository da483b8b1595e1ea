/** Every interleaving commits what the one-request-at-a-time reference commits, in commit
    order, with the same results. */
module Serializability {
  import opened Schema
  import opened TransferStore
  import opened StoreInvariant
  import opened Serial

  /** Which account is updated first does not show in the rows that are written. */
  lemma LockOrderRows(c: Tables, tx: Tx)
    requires AccountShape(c, tx) && tx.pc.Commit?
    ensures AccountsExist(c, tx.args.transfer)
    ensures c.accounts + tx.writes.accounts == Moved(c.accounts, tx.args.transfer)
    ensures Affordable(c.accounts, tx.args.transfer)
    ensures tx.result.fromAccount == Debited(c.accounts, tx.args.transfer)
    ensures tx.result.toAccount == Credited(c.accounts, tx.args.transfer)
  {}

  lemma OneRow<K, V>(m: map<K, V>, k: K, v: V)
    ensures m + map[k := v] == m[k := v]
  {}

  lemma TwoRows<K, V>(m: map<K, V>, k: K, v: V, k': K, v': V)
    ensures m + map[k := v, k' := v'] == m[k := v][k' := v']
  {}

  /** Pending rows that amount to a booked transfer. */
  lemma {:induction false} PendingIsBooked(c: Tables, w: Tables, args: TxArgs, r: TransferResult)
    requires AccountsExist(c, args.transfer)
    requires c.accounts + w.accounts == Moved(c.accounts, args.transfer)
    requires w.transfers == map[r.transfer.id := r.transfer]
    requires w.entries == map[r.fromEntry.id := r.fromEntry, r.toEntry.id := r.toEntry]
    requires w.keys == if args.claim.Some? then
      map[args.claim.value.id := KeyRow(args.claim.value.requestHash, Json(r))] else map[]
    ensures Overlay(c, w) == Booked(c, args, r)
  {
    OneRow(c.transfers, r.transfer.id, r.transfer);
    TwoRows(c.entries, r.fromEntry.id, r.fromEntry, r.toEntry.id, r.toEntry);
    if args.claim.Some? {
      OneRow(c.keys, args.claim.value.id, KeyRow(args.claim.value.requestHash, Json(r)));
    } else {
      assert c.keys + map[] == c.keys;
    }
  }

  lemma CommitIsAdmissible(c: Tables, q: Sequences, tx: Tx)
    requires Shape(c, q, tx) && tx.pc.Commit?
    ensures Admissible(c, tx.args) && FreshIds(c, tx.result)
    ensures var a, r := tx.args.transfer, tx.result;
      r == Receipt(c.accounts, a, r.transfer.id, r.fromEntry.id, r.toEntry.id)
  {
    LockOrderRows(c, tx);
    if tx.args.claim.Some? {
      assert tx.args.claim.value.id in tx.writes.keys;
    }
  }

  /** At COMMIT a transaction's pending rows are what the reference books on the tables
      committed at that moment, whatever was committed since it began. */
  lemma {:induction false} CommitIsLegal(users: set<string>, c: Tables, q: Sequences, tx: Tx, t: nat)
    requires Shape(c, q, tx) && tx.pc.Commit?
    ensures Legal(users, c, Transferred(t, tx.args, tx.result))
    ensures Overlay(c, tx.writes) == Apply(users, c, Transferred(t, tx.args, tx.result))
  {
    CommitIsAdmissible(c, q, tx);
    LockOrderRows(c, tx);
    PendingIsBooked(c, tx.writes, tx.args, tx.result);
  }

  /** What a step does to the committed tables is what its event does in the reference. */
  ghost predicate SerialStep(users: set<string>, c: Tables, event: seq<Event>, c': Tables) {
    if event == [] then c' == c
    else |event| == 1 && Legal(users, c, event[0]) && c' == Apply(users, c, event[0])
  }

  lemma {:induction false} CommitStep(s: Db, t: nat, a: Action)
    requires Inv(s) && t < |s.txs| && s.txs[t].pc.Commit? && (a == Statement(t) || a == LoseAck(t))
    ensures SerialStep(s.users, s.committed, EventOf(s, a), Step(s, a).committed)
  {
    CommitIsLegal(s.users, s.committed, s.seqs, s.txs[t], t);
    CommitIsUnblocked(s, t, a);
  }

  lemma OpenIsSerial(s: Db, owner: string, currency: string)
    requires Inv(s)
    ensures SerialStep(s.users, s.committed, EventOf(s, OpenAccount(owner, currency)), OpenStep(s, owner, currency).committed)
  {}

  lemma {:induction false} StepIsSerial(s: Db, a: Action)
    requires Inv(s)
    ensures Step(s, a).users == s.users
    ensures SerialStep(s.users, s.committed, EventOf(s, a), Step(s, a).committed)
  {
    match a
    case Statement(t) =>
      if t < |s.txs| && s.txs[t].pc.Commit? {
        CommitStep(s, t, a);
      }
    case LoseAck(t) =>
      if t < |s.txs| && s.txs[t].pc.Commit? {
        CommitStep(s, t, a);
      }
    case Interrupt(_) =>
    case OpenAccount(owner, currency) => OpenIsSerial(s, owner, currency);
  }

  lemma ReplayEvent(users: set<string>, c: Tables, h: seq<Event>, event: seq<Event>, c': Tables)
    requires LegalHistory(users, c, h) && SerialStep(users, Replay(users, c, h), event, c')
    ensures LegalHistory(users, c, h + event) && Replay(users, c, h + event) == c'
  {
    if event == [] {
      assert h + event == h;
    } else {
      assert event == [event[0]];
      ReplaySnoc(users, c, h, event[0]);
    }
  }

  /** Commit-order serializability. For every schedule, with interruptions and lost replies
      anywhere, the committed tables are those of the reference run over the committed
      events alone, one at a time in commit order; each of them succeeds there, and returns
      there the result it returned in the run. */
  lemma {:induction false} CommitOrderSerializable(s: Db, schedule: seq<Action>)
    requires Initial(s)
    ensures Exec(s, schedule).users == s.users
    ensures Exec(s, schedule).committed == Replay(s.users, s.committed, History(s, schedule))
    ensures LegalHistory(s.users, s.committed, History(s, schedule))
  {
    if schedule != [] {
      var before, a := schedule[..|schedule| - 1], schedule[|schedule| - 1];
      CommitOrderSerializable(s, before);
      ExecInv(s, before);
      var m := Exec(s, before);
      StepIsSerial(m, a);
      ReplayEvent(s.users, s.committed, History(s, before), EventOf(m, a), Step(m, a).committed);
    }
  }

  // ---------- the history holds the committed transactions and nothing else ----------

  ghost predicate OnlyAt(h: seq<Event>, i: int, t: nat) {
    forall j :: 0 <= j < |h| && h[j].Transferred? && h[j].t == t ==> j == i
  }

  /** t committed in this history, exactly once, with these arguments and this result. */
  ghost predicate Recorded(h: seq<Event>, t: nat, args: TxArgs, result: TransferResult) {
    exists i :: 0 <= i < |h| && h[i] == Transferred(t, args, result) && OnlyAt(h, i, t)
  }

  ghost predicate Unrecorded(h: seq<Event>, t: nat) {
    forall j :: 0 <= j < |h| ==> !(h[j].Transferred? && h[j].t == t)
  }

  lemma RecordedSnoc(h: seq<Event>, e: Event, t: nat, args: TxArgs, result: TransferResult)
    ensures Unrecorded(h, t) && !(e.Transferred? && e.t == t) ==> Unrecorded(h + [e], t)
    ensures Recorded(h, t, args, result) && !(e.Transferred? && e.t == t) ==> Recorded(h + [e], t, args, result)
    ensures Unrecorded(h, t) && e == Transferred(t, args, result) ==> Recorded(h + [e], t, args, result)
  {
    if Recorded(h, t, args, result) && !(e.Transferred? && e.t == t) {
      var i :| 0 <= i < |h| && h[i] == Transferred(t, args, result) && OnlyAt(h, i, t);
      assert (h + [e])[i] == h[i] && OnlyAt(h + [e], i, t);
    }
    if Unrecorded(h, t) && e == Transferred(t, args, result) {
      assert (h + [e])[|h|] == e && OnlyAt(h + [e], |h|, t);
    }
  }

  lemma StepTx(s: Db, a: Action, t: nat)
    requires t < |s.txs|
    ensures |Step(s, a).txs| == |s.txs| && Step(s, a).txs[t].args == s.txs[t].args
    ensures s.txs[t].pc.Done? ==> Step(s, a).txs[t] == s.txs[t]
    ensures var e := EventOf(s, a);
      if e != [] && e[0].Transferred? && e[0].t == t then
        && s.txs[t].pc.Commit?
        && e == [Transferred(t, s.txs[t].args, Step(s, a).txs[t].result)]
        && Step(s, a).txs[t].pc.Done? && Step(s, a).txs[t].pc.outcome.Committed?
      else
        s.txs[t].pc.Done? || !(Step(s, a).txs[t].pc.Done? && Step(s, a).txs[t].pc.outcome.Committed?)
  {}

  lemma {:induction false} ExecTxs(s: Db, schedule: seq<Action>)
    ensures |Exec(s, schedule).txs| == |s.txs|
    ensures forall t :: 0 <= t < |s.txs| ==> Exec(s, schedule).txs[t].args == s.txs[t].args
  {
    if schedule != [] {
      var before, a := schedule[..|schedule| - 1], schedule[|schedule| - 1];
      ExecTxs(s, before);
      forall t | 0 <= t < |s.txs| ensures Exec(s, schedule).txs[t].args == s.txs[t].args {
        StepTx(Exec(s, before), a, t);
      }
      if |s.txs| > 0 {
        StepTx(Exec(s, before), a, 0);
      }
    }
  }

  /** Rollback is total: a transaction is in the history once if it committed, with the
      result its caller was given, and has left no trace in it otherwise. */
  lemma {:induction false} HistoryIsTheCommitted(s: Db, schedule: seq<Action>, t: nat)
    requires Initial(s) && t < |s.txs|
    ensures |Exec(s, schedule).txs| == |s.txs|
    ensures var tx, h := Exec(s, schedule).txs[t], History(s, schedule);
      if tx.pc.Done? && tx.pc.outcome.Committed? then Recorded(h, t, s.txs[t].args, tx.result)
      else Unrecorded(h, t)
  {
    ExecTxs(s, schedule);
    if schedule == [] {
      assert s.txs[t] == NewTx(s.txs[t].args);
    } else {
      var before, a := schedule[..|schedule| - 1], schedule[|schedule| - 1];
      HistoryIsTheCommitted(s, before, t);
      ExecTxs(s, before);
      var m := Exec(s, before);
      StepTx(m, a, t);
      var h, e := History(s, before), EventOf(m, a);
      if e == [] {
        assert History(s, schedule) == h;
      } else {
        assert |e| == 1 && History(s, schedule) == h + [e[0]];
        RecordedSnoc(h, e[0], t, s.txs[t].args, Exec(s, schedule).txs[t].result);
      }
    }
  }
}
