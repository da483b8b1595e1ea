/** Exactly once: what the primary key on (owner, key) and claiming first give, over every run. */
module Idempotency {
  import opened Schema
  import opened TransferStore
  import opened StoreInvariant
  import opened Serial
  import opened Serializability

  /** The event is a transfer that claimed k. */
  predicate Spends(e: Event, k: KeyId) {
    e.Transferred? && e.args.claim.Some? && e.args.claim.value.id == k
  }

  /** The row such a transfer leaves in idempotency_keys. */
  function SpentRow(e: Event): KeyRow
    requires e.Transferred? && e.args.claim.Some?
  {
    KeyRow(e.args.claim.value.requestHash, Json(e.result))
  }

  // ---------- keys in the reference ----------

  lemma ApplyKeys(users: set<string>, c: Tables, e: Event, k: KeyId)
    requires Legal(users, c, e)
    ensures Spends(e, k) ==> k !in c.keys && k in Apply(users, c, e).keys && Apply(users, c, e).keys[k] == SpentRow(e)
    ensures !Spends(e, k) ==> (k in Apply(users, c, e).keys <==> k in c.keys)
    ensures k in c.keys ==> k in Apply(users, c, e).keys && Apply(users, c, e).keys[k] == c.keys[k]
  {}

  /** A key row is either one the run started with, or the row of the one event that spent it. */
  ghost predicate KeyAccounted(c: Tables, d: Tables, h: seq<Event>, k: KeyId) {
    && (k in c.keys ==> k in d.keys && d.keys[k] == c.keys[k])
    && (forall i :: 0 <= i < |h| && Spends(h[i], k) ==> k !in c.keys && k in d.keys && d.keys[k] == SpentRow(h[i]))
    && (k in d.keys && k !in c.keys ==> exists i :: 0 <= i < |h| && Spends(h[i], k))
    && (forall i, j :: 0 <= i < |h| && 0 <= j < |h| && Spends(h[i], k) && Spends(h[j], k) ==> i == j)
  }

  lemma KeyAccountedSnoc(users: set<string>, c: Tables, d: Tables, h: seq<Event>, e: Event, k: KeyId)
    requires KeyAccounted(c, d, h, k) && Legal(users, d, e)
    ensures KeyAccounted(c, Apply(users, d, e), h + [e], k)
  {
    ApplyKeys(users, d, e, k);
    var h', d' := h + [e], Apply(users, d, e);
    if k in d'.keys && k !in c.keys {
      if k in d.keys {
        var i :| 0 <= i < |h| && Spends(h[i], k);
        assert Spends(h'[i], k);
      } else {
        assert Spends(h'[|h|], k);
      }
    }
  }

  lemma {:induction false} KeyRowsOfHistory(users: set<string>, c: Tables, h: seq<Event>, k: KeyId)
    requires LegalHistory(users, c, h)
    ensures KeyAccounted(c, Replay(users, c, h), h, k)
  {
    if h != [] {
      var n := |h| - 1;
      KeyRowsOfHistory(users, c, h[..n], k);
      KeyAccountedSnoc(users, c, Replay(users, c, h[..n]), h[..n], h[n], k);
      assert h[..n] + [h[n]] == h;
    }
  }

  /** Exactly once, over every run: no two committed transfers spent the same (owner, key),
      and none spent a key that was already there. */
  lemma AtMostOncePerKey(s: Db, schedule: seq<Action>, i: nat, j: nat, k: KeyId)
    requires Initial(s) && i < |History(s, schedule)| && j < |History(s, schedule)|
    requires Spends(History(s, schedule)[i], k) && Spends(History(s, schedule)[j], k)
    ensures i == j && k !in s.committed.keys
  {
    CommitOrderSerializable(s, schedule);
    KeyRowsOfHistory(s.users, s.committed, History(s, schedule), k);
  }

  /** Committed claims are complete: every visible key row carries the response of a transfer
      that is committed with it, the result its transaction returned; there is no row that is
      still being processed. */
  lemma ClaimsAreComplete(s: Db, schedule: seq<Action>, k: KeyId)
    requires Initial(s) && k in Exec(s, schedule).committed.keys
    ensures Completed(Exec(s, schedule).committed, k)
    ensures k in s.committed.keys ==> Exec(s, schedule).committed.keys[k] == s.committed.keys[k]
    ensures k !in s.committed.keys ==> exists i ::
      0 <= i < |History(s, schedule)| && Spends(History(s, schedule)[i], k) &&
      Exec(s, schedule).committed.keys[k] == SpentRow(History(s, schedule)[i])
  {
    ExecInv(s, schedule);
    CommitOrderSerializable(s, schedule);
    KeyRowsOfHistory(s.users, s.committed, History(s, schedule), k);
    if k !in s.committed.keys {
      var i :| 0 <= i < |History(s, schedule)| && Spends(History(s, schedule)[i], k);
      assert Exec(s, schedule).committed.keys[k] == SpentRow(History(s, schedule)[i]);
    }
  }

  ghost predicate KeysStay(c: Tables, c': Tables) {
    forall k :: k in c.keys ==> k in c'.keys && c'.keys[k] == c.keys[k]
  }

  /** A committed key row is never changed or removed. */
  lemma StepKeepsKeys(s: Db, a: Action)
    requires Inv(s)
    ensures KeysStay(s.committed, Step(s, a).committed)
  {
    StepIsSerial(s, a);
    if EventOf(s, a) != [] {
      forall k | k in s.committed.keys ensures k in Step(s, a).committed.keys && Step(s, a).committed.keys[k] == s.committed.keys[k] {
        ApplyKeys(s.users, s.committed, EventOf(s, a)[0], k);
      }
    }
  }

  /** The same over any later part of a run. */
  lemma {:induction false} KeysAreForever(s: Db, first: seq<Action>, rest: seq<Action>)
    requires Initial(s)
    ensures KeysStay(Exec(s, first).committed, Exec(s, first + rest).committed)
  {
    if rest == [] {
      assert first + rest == first;
    } else {
      var before, a := first + rest[..|rest| - 1], rest[|rest| - 1];
      KeysAreForever(s, first, rest[..|rest| - 1]);
      ExecInv(s, before);
      StepKeepsKeys(Exec(s, before), a);
      ExecLast(s, first, rest);
    }
  }

  // ---------- who gets unique_violation ----------

  /** The transaction's claim met unique_violation. */
  predicate Refused(pc: Pc) {
    || pc == RollBack(UniqueViolation)
    || (pc.Done? && pc.outcome.Failed? && pc.outcome.error == UniqueViolation)
  }

  lemma {:induction false} RefusalArises(s: Db, a: Action, t: nat)
    requires t < |s.txs| && t < |Step(s, a).txs| && Refused(Step(s, a).txs[t].pc) && !Refused(s.txs[t].pc)
    ensures a == Statement(t) && s.txs[t].pc.Claim? && Step(s, a).txs[t] == RunClaim(s.committed, s.txs[t])
  {
    if !ActsOn(a, t) {
      StepOfAnother(s, a, t);
    }
  }

  lemma {:induction false} RefusedTx(s: Db, a: Action, t: nat)
    requires t < |s.txs| && t < |Step(s, a).txs| && Refused(Step(s, a).txs[t].pc)
    ensures s.txs[t].args.claim.Some? || Refused(s.txs[t].pc)
    ensures Refused(s.txs[t].pc) || s.txs[t].args.claim.value.id in s.committed.keys
  {
    if !Refused(s.txs[t].pc) {
      RefusalArises(s, a, t);
    }
  }

  /** Only a key that is committed refuses a claim, and it stays committed: a request that
      received unique_violation finds the row. */
  lemma {:induction false} RefusalFindsTheRow(s: Db, schedule: seq<Action>, t: nat)
    requires Initial(s) && t < |s.txs| && t < |Exec(s, schedule).txs| && Refused(Exec(s, schedule).txs[t].pc)
    ensures s.txs[t].args.claim.Some?
    ensures s.txs[t].args.claim.value.id in Exec(s, schedule).committed.keys
  {
    assert s.txs[t] == NewTx(s.txs[t].args);
    if schedule != [] {
      var before, a := schedule[..|schedule| - 1], schedule[|schedule| - 1];
      ExecTxs(s, before);
      ExecInv(s, before);
      StepKeepsKeys(Exec(s, before), a);
      RefusedTx(Exec(s, before), a, t);
      if Refused(Exec(s, before).txs[t].pc) {
        RefusalFindsTheRow(s, before, t);
      }
    }
  }

  predicate Attempts(tx: Tx, k: KeyId) {
    tx.args.claim.Some? && tx.args.claim.value.id == k
  }

  predicate Lost(tx: Tx) {
    tx.pc.Done? && tx.pc.outcome.Failed? && tx.pc.outcome.error == UniqueViolation
  }

  lemma {:induction false} EventTx(s: Db, schedule: seq<Action>, i: nat)
    requires i < |History(s, schedule)| && History(s, schedule)[i].Transferred?
    ensures History(s, schedule)[i].t < |s.txs|
  {
    if schedule != [] {
      var before := schedule[..|schedule| - 1];
      ExecTxs(s, before);
      if i < |History(s, before)| {
        EventTx(s, before, i);
      }
    }
  }

  lemma {:induction false} WinnerOfEvent(s: Db, schedule: seq<Action>, i: nat, k: KeyId) returns (w: nat)
    requires Initial(s) && i < |History(s, schedule)| && Spends(History(s, schedule)[i], k)
    ensures w < |Exec(s, schedule).txs| == |s.txs| && Won(Exec(s, schedule).txs[w]) && Attempts(s.txs[w], k)
  {
    ExecTxs(s, schedule);
    w := History(s, schedule)[i].t;
    EventTx(s, schedule, i);
    HistoryIsTheCommitted(s, schedule, w);
  }

  /** Of any number of concurrent attempts with one unused key, among any other
      transactions, if every attempt has ended and none failed for another reason, exactly
      one has committed and every other one met unique_violation. */
  lemma ExactlyOneAttemptWins(s: Db, schedule: seq<Action>, k: KeyId, some: nat) returns (w: nat)
    requires Initial(s) && k !in s.committed.keys
    requires some < |s.txs| && Attempts(s.txs[some], k)
    requires forall t :: 0 <= t < |Exec(s, schedule).txs| && Attempts(Exec(s, schedule).txs[t], k) ==>
      Won(Exec(s, schedule).txs[t]) || Lost(Exec(s, schedule).txs[t])
    ensures w < |Exec(s, schedule).txs| && Attempts(Exec(s, schedule).txs[w], k) && Won(Exec(s, schedule).txs[w])
    ensures forall t :: 0 <= t < |Exec(s, schedule).txs| && t != w && Attempts(Exec(s, schedule).txs[t], k) ==> Lost(Exec(s, schedule).txs[t])
  {
    var m, h := Exec(s, schedule), History(s, schedule);
    ExecTxs(s, schedule);
    CommitOrderSerializable(s, schedule);
    KeyRowsOfHistory(s.users, s.committed, h, k);
    if Won(m.txs[some]) {
      w := some;
    } else {
      RefusalFindsTheRow(s, schedule, some);
      var i :| 0 <= i < |h| && Spends(h[i], k);
      w := WinnerOfEvent(s, schedule, i, k);
    }
    forall t | 0 <= t < |m.txs| && t != w && Attempts(m.txs[t], k) ensures Lost(m.txs[t]) {
      if Won(m.txs[t]) {
        HistoryIsTheCommitted(s, schedule, t);
        HistoryIsTheCommitted(s, schedule, w);
        var i :| 0 <= i < |h| && h[i] == Transferred(t, s.txs[t].args, m.txs[t].result);
        var j :| 0 <= j < |h| && h[j] == Transferred(w, s.txs[w].args, m.txs[w].result);
        assert Spends(h[i], k) && Spends(h[j], k);
      }
    }
  }

  // ---------- a failed transfer releases the key ----------

  /** The transaction has failed: its error is on its way to the caller, or there. */
  predicate HasFailed(pc: Pc) {
    pc.RollBack? || (pc.Done? && pc.outcome.Failed?)
  }

  /** A transaction that fails takes its pending rows with it, and touches nothing else. */
  lemma {:induction false} FailureReleases(m: Db, a: Action, t: nat)
    requires t < |m.txs| && KeyShape(m.committed, m.txs[t]) && m.txs[t].writes.keys != map[]
    requires t < |Step(m, a).txs| && HasFailed(Step(m, a).txs[t].pc)
    ensures ActsOn(a, t) && |Step(m, a).txs| == |m.txs| && Step(m, a).committed == m.committed
    ensures Step(m, a).txs[t].writes == NO_ROWS
    ensures forall v :: 0 <= v < |m.txs| && v != t ==> Step(m, a).txs[v] == m.txs[v]
  {
    assert HasClaimed(m.txs[t].pc);
    if !ActsOn(a, t) {
      assert Step(m, a).txs[t].pc == m.txs[t].pc by {
        StepOfAnother(m, a, t);
      }
      assert false;
    }
  }

  /** Rollback frees the key: whenever a transaction that holds a claim fails, at whatever
      statement, the committed tables are as they were, the key is unclaimed, and no
      transaction has it pending. */
  lemma {:induction false} RollbackFreesTheKey(s: Db, schedule: seq<Action>, a: Action, t: nat, k: KeyId)
    requires Initial(s)
    requires t < |Exec(s, schedule).txs| && k in Exec(s, schedule).txs[t].writes.keys
    requires t < |Exec(s, schedule + [a]).txs| && HasFailed(Exec(s, schedule + [a]).txs[t].pc)
    ensures Exec(s, schedule + [a]).committed == Exec(s, schedule).committed
    ensures k !in Exec(s, schedule + [a]).committed.keys
    ensures forall v :: 0 <= v < |Exec(s, schedule + [a]).txs| ==> k !in Exec(s, schedule + [a]).txs[v].writes.keys
  {
    var m := Exec(s, schedule);
    ExecInv(s, schedule);
    ExecSnoc(s, schedule, a);
    assert Shape(m.committed, m.seqs, m.txs[t]);
    FailureReleases(m, a, t);
    forall v | 0 <= v < |m.txs| ensures k !in Step(m, a).txs[v].writes.keys {
      if v != t {
        assert Apart(m.txs[t].writes, m.txs[v].writes);
      }
    }
  }

  /** A request that was blocked on the key can then claim it and go on. */
  lemma {:induction false} FreedKeyIsClaimed(s: Db, schedule: seq<Action>, a: Action, t: nat, u: nat, k: KeyId)
    requires Initial(s)
    requires t < |Exec(s, schedule).txs| && k in Exec(s, schedule).txs[t].writes.keys
    requires t < |Exec(s, schedule + [a]).txs| && HasFailed(Exec(s, schedule + [a]).txs[t].pc)
    requires WaitsFor(Exec(s, schedule), u, t) && Needs(Exec(s, schedule).txs[u]) == Some(KeyLock(k))
    ensures var m := Exec(s, schedule + [a] + [Statement(u)]);
      u < |m.txs| && m.txs[u].pc.InsertTransfer? && k in m.txs[u].writes.keys
  {
    var m, n := Exec(s, schedule), Exec(s, schedule + [a]);
    RollbackFreesTheKey(s, schedule, a, t, k);
    ExecSnoc(s, schedule, a);
    ExecSnoc(s, schedule + [a], Statement(u));
    ExecInv(s, schedule);
    assert n.txs[u] == m.txs[u] by {
      assert Shape(m.committed, m.seqs, m.txs[t]);
      FailureReleases(m, a, t);
    }
    assert n.txs[u].pc.Claim?;
    assert !Blocked(n, u);
  }
}
