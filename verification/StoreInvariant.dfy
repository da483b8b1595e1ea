/** What every reachable state of the store satisfies: each unfinished transaction's pending
    rows are exactly those its finished statements wrote, computed from the rows committed
    now, and no two transactions hold the same row. */
module StoreInvariant {
  import opened Schema
  import opened TransferStore

  // ---------- how far a transaction has come ----------

  predicate HasSecond(pc: Pc) {
    pc.Complete? || pc.Commit?
  }

  predicate HasFirst(pc: Pc) {
    pc.AddSecond? || HasSecond(pc)
  }

  predicate HasToEntry(pc: Pc) {
    pc.AddFirst? || HasFirst(pc)
  }

  predicate HasFromEntry(pc: Pc) {
    pc.InsertToEntry? || HasToEntry(pc)
  }

  predicate HasTransfer(pc: Pc) {
    pc.InsertFromEntry? || HasFromEntry(pc)
  }

  predicate HasClaimed(pc: Pc) {
    pc.InsertTransfer? || HasTransfer(pc)
  }

  predicate InRange(balance: int) {
    0 <= balance <= INT64_MAX
  }

  // ---------- the rows it has pending ----------

  function PendingKeys(tx: Tx): map<KeyId, KeyRow> {
    if HasClaimed(tx.pc) && tx.args.claim.Some? then
      map[tx.args.claim.value.id :=
          KeyRow(tx.args.claim.value.requestHash, if tx.pc.Commit? then Json(tx.result) else Empty)]
    else map[]
  }

  function PendingTransfers(tx: Tx): map<int, Transfer> {
    if HasTransfer(tx.pc) then map[tx.result.transfer.id := tx.result.transfer] else map[]
  }

  function PendingEntries(tx: Tx): map<int, Entry> {
    if HasToEntry(tx.pc) then
      map[tx.result.fromEntry.id := tx.result.fromEntry, tx.result.toEntry.id := tx.result.toEntry]
    else if HasFromEntry(tx.pc) then map[tx.result.fromEntry.id := tx.result.fromEntry]
    else map[]
  }

  /** The first updated account row. */
  function FirstRow(c: map<int, Account>, a: TransferArgs): Account
    requires FirstId(a) in c
  {
    c[FirstId(a)].(balance := c[FirstId(a)].balance + FirstAmount(a))
  }

  /** The second updated account row: it is the first one again when both ids are equal. */
  function SecondRow(c: map<int, Account>, a: TransferArgs): Account
    requires FirstId(a) in c && SecondId(a) in c
  {
    var row := if FirstId(a) == SecondId(a) then FirstRow(c, a) else c[SecondId(a)];
    row.(balance := row.balance + SecondAmount(a))
  }

  function PendingAccounts(c: map<int, Account>, tx: Tx): map<int, Account>
    requires HasFirst(tx.pc) ==> FirstId(tx.args.transfer) in c && SecondId(tx.args.transfer) in c
  {
    var a := tx.args.transfer;
    if HasSecond(tx.pc) then map[FirstId(a) := FirstRow(c, a), SecondId(a) := SecondRow(c, a)]
    else if HasFirst(tx.pc) then map[FirstId(a) := FirstRow(c, a)]
    else map[]
  }

  // ---------- the invariant ----------

  ghost predicate KeyShape(c: Tables, tx: Tx) {
    && tx.writes.keys == PendingKeys(tx)
    && (forall k :: k in tx.writes.keys ==> k !in c.keys)
    && ((tx.pc.Claim? || tx.pc.Complete?) ==> tx.args.claim.Some?)
  }

  ghost predicate TransferShape(c: Tables, q: Sequences, tx: Tx) {
    var a, r := tx.args.transfer, tx.result;
    && tx.writes.transfers == PendingTransfers(tx)
    && (HasTransfer(tx.pc) ==>
          && AccountsExist(c, a)
          && r.transfer == Transfer(r.transfer.id, a.from, a.to, a.amount)
          && 0 <= r.transfer.id < q.transfer && r.transfer.id !in c.transfers)
  }

  ghost predicate EntryShape(c: Tables, q: Sequences, tx: Tx) {
    var a, r := tx.args.transfer, tx.result;
    && tx.writes.entries == PendingEntries(tx)
    && (HasFromEntry(tx.pc) ==>
          && r.fromEntry == Entry(r.fromEntry.id, a.from, Negate(a.amount))
          && 0 <= r.fromEntry.id < q.entry && r.fromEntry.id !in c.entries)
    && (HasToEntry(tx.pc) ==>
          && r.toEntry == Entry(r.toEntry.id, a.to, a.amount)
          && 0 <= r.toEntry.id < q.entry && r.toEntry.id !in c.entries
          && r.toEntry.id != r.fromEntry.id)
  }

  ghost predicate AccountShape(c: Tables, tx: Tx) {
    var a, r := tx.args.transfer, tx.result;
    && (HasFirst(tx.pc) ==>
          && AccountsExist(c, a)
          && InRange(FirstRow(c.accounts, a).balance)
          && FirstRow(c.accounts, a) == (if a.from < a.to then r.fromAccount else r.toAccount))
    && (HasSecond(tx.pc) ==>
          && InRange(SecondRow(c.accounts, a).balance)
          && SecondRow(c.accounts, a) == (if a.from < a.to then r.toAccount else r.fromAccount))
    && tx.writes.accounts == PendingAccounts(c.accounts, tx)
  }

  ghost predicate Shape(c: Tables, q: Sequences, tx: Tx) {
    KeyShape(c, tx) && TransferShape(c, q, tx) && EntryShape(c, q, tx) && AccountShape(c, tx)
  }

  /** Two transactions have no pending row in common. */
  ghost predicate Apart(v: Tables, w: Tables) {
    && (forall k :: k in v.keys ==> k !in w.keys)
    && (forall id :: id in v.accounts ==> id !in w.accounts)
    && (forall id :: id in v.transfers ==> id !in w.transfers)
    && (forall id :: id in v.entries ==> id !in w.entries)
  }

  ghost predicate Inv(s: Db) {
    && WellFormed(s.committed, s.seqs)
    && (forall t :: 0 <= t < |s.txs| ==> Shape(s.committed, s.seqs, s.txs[t]))
    && (forall t, u :: 0 <= t < |s.txs| && 0 <= u < |s.txs| && t != u ==> Apart(s.txs[t].writes, s.txs[u].writes))
  }

  lemma InitialInv(s: Db)
    requires Initial(s)
    ensures Inv(s)
  {
    forall t | 0 <= t < |s.txs| ensures s.txs[t].writes == NO_ROWS && Shape(s.committed, s.seqs, s.txs[t]) {
      assert s.txs[t] == NewTx(s.txs[t].args);
    }
  }

  // ---------- one statement keeps its own transaction's shape ----------

  ghost predicate Later(q: Sequences, q': Sequences) {
    q.account <= q'.account && q.transfer <= q'.transfer && q.entry <= q'.entry
  }

  /** A transaction with nothing pending, wherever it ends up. */
  lemma EmptyShape(c: Tables, q: Sequences, tx: Tx)
    requires tx.writes == NO_ROWS && (tx.pc.Begin? || tx.pc.RollBack? || tx.pc.Done?)
    ensures Shape(c, q, tx)
  {}

  lemma {:induction false} AddShape(c: Tables, q: Sequences, tx: Tx)
    requires WellFormed(c, q) && Shape(c, q, tx) && (tx.pc.AddFirst? || tx.pc.AddSecond?)
    ensures Shape(c, q, RunStatement(c, q, tx))
  {
    var tx' := RunStatement(c, q, tx);
    if tx'.pc.RollBack? {
      EmptyShape(c, q, tx');
    } else {
      assert tx'.writes.accounts == PendingAccounts(c.accounts, tx');
    }
  }

  lemma ClaimShape(c: Tables, q: Sequences, tx: Tx)
    requires Shape(c, q, tx) && tx.pc.Claim?
    ensures Shape(c, q, RunClaim(c, tx))
  {
    var tx' := RunClaim(c, tx);
    if tx'.pc.RollBack? {
      EmptyShape(c, q, tx');
    } else {
      assert tx'.writes.keys == PendingKeys(tx');
    }
  }

  lemma CompleteShape(c: Tables, q: Sequences, tx: Tx)
    requires Shape(c, q, tx) && tx.pc.Complete?
    ensures Shape(c, q, RunComplete(c, tx))
  {
    var tx' := RunComplete(c, tx);
    assert tx.args.claim.value.id in tx.writes.keys;
    assert tx'.writes.keys == PendingKeys(tx');
    assert PendingAccounts(c.accounts, tx') == PendingAccounts(c.accounts, tx);
  }

  lemma InsertShape(c: Tables, q: Sequences, tx: Tx)
    requires WellFormed(c, q) && Shape(c, q, tx)
    requires tx.pc.InsertTransfer? || tx.pc.InsertFromEntry? || tx.pc.InsertToEntry?
    ensures Shape(c, Draw(q, tx.pc), RunStatement(c, q, tx))
  {
    var tx' := RunStatement(c, q, tx);
    if tx'.pc.RollBack? {
      EmptyShape(c, Draw(q, tx.pc), tx');
    } else {
      assert tx'.writes.transfers == PendingTransfers(tx');
      assert tx'.writes.entries == PendingEntries(tx');
    }
  }

  lemma {:induction false} StatementShape(c: Tables, q: Sequences, tx: Tx)
    requires WellFormed(c, q) && Shape(c, q, tx)
    ensures Shape(c, Draw(q, tx.pc), RunStatement(c, q, tx))
  {
    match tx.pc
    case InsertTransfer => InsertShape(c, q, tx);
    case InsertFromEntry => InsertShape(c, q, tx);
    case InsertToEntry => InsertShape(c, q, tx);
    case Claim => ClaimShape(c, q, tx);
    case Complete => CompleteShape(c, q, tx);
    case AddFirst => AddShape(c, q, tx);
    case AddSecond => AddShape(c, q, tx);
    case RollBack(_) => EmptyShape(c, q, RunStatement(c, q, tx));
    case _ =>
  }

  /** Rows that are pending and not updates are in no committed table. */
  ghost predicate Unseen(c: Tables, v: Tables) {
    && (forall k :: k in v.keys ==> k !in c.keys)
    && (forall id :: id in v.transfers ==> id !in c.transfers)
    && (forall id :: id in v.entries ==> id !in c.entries)
  }

  lemma PendingIsUnseen(c: Tables, q: Sequences, tx: Tx)
    requires KeyShape(c, tx) && TransferShape(c, q, tx) && EntryShape(c, q, tx)
    ensures Unseen(c, tx.writes)
  {}

  /** Another transaction's commit, an opened account or a spent id does not disturb a
      transaction that holds none of the changed rows. */
  lemma ShapeFrame(c: Tables, c': Tables, q: Sequences, q': Sequences, tx: Tx)
    requires Shape(c, q, tx) && Later(q, q') && Unseen(c', tx.writes)
    requires forall id :: id in c.accounts ==> id in c'.accounts
    requires forall id :: id in tx.writes.accounts && id in c.accounts ==> c'.accounts[id] == c.accounts[id]
    ensures Shape(c', q', tx)
  {
    if HasFirst(tx.pc) {
      assert FirstId(tx.args.transfer) in tx.writes.accounts;
    }
    if HasSecond(tx.pc) {
      assert SecondId(tx.args.transfer) in tx.writes.accounts;
    }
    if HasTransfer(tx.pc) {
      assert tx.result.transfer.id in tx.writes.transfers;
    }
    if HasFromEntry(tx.pc) {
      assert tx.result.fromEntry.id in tx.writes.entries;
    }
    if HasToEntry(tx.pc) {
      assert tx.result.toEntry.id in tx.writes.entries;
    }
  }

  // ---------- one statement keeps the transactions apart ----------

  /** The rows a statement adds are the locked one, or carry a fresh id. */
  lemma StatementWrites(c: Tables, q: Sequences, tx: Tx)
    requires WellFormed(c, q) && Shape(c, q, tx)
    ensures var w, w' := tx.writes, RunStatement(c, q, tx).writes;
      && (forall k :: k in w'.keys && k !in w.keys ==> Needs(tx) == Some(KeyLock(k)))
      && (forall id :: id in w'.accounts && id !in w.accounts ==> Needs(tx) == Some(AccountLock(id)))
      && (forall id :: id in w'.transfers && id !in w.transfers ==> id == q.transfer)
      && (forall id :: id in w'.entries && id !in w.entries ==> id == q.entry)
  {}

  lemma PendingIds(c: Tables, q: Sequences, tx: Tx)
    requires Shape(c, q, tx)
    ensures forall id :: id in tx.writes.transfers ==> id < q.transfer
    ensures forall id :: id in tx.writes.entries ==> id < q.entry
  {}

  lemma StatementApart(s: Db, t: nat, u: nat)
    requires Inv(s) && t < |s.txs| && u < |s.txs| && t != u && !Blocked(s, t)
    ensures Apart(RunStatement(s.committed, s.seqs, s.txs[t]).writes, s.txs[u].writes)
  {
    var tx := s.txs[t];
    assert !WaitsFor(s, t, u);
    assert Apart(tx.writes, s.txs[u].writes);
    StatementWrites(s.committed, s.seqs, tx);
    PendingIds(s.committed, s.seqs, s.txs[u]);
  }

  lemma ApartSymmetric(v: Tables, w: Tables)
    requires Apart(v, w)
    ensures Apart(w, v)
  {}

  // ---------- every step keeps the invariant ----------

  /** A step of transaction t that commits nothing. */
  lemma LocalStepInv(s: Db, t: nat, q': Sequences, tx': Tx)
    requires Inv(s) && t < |s.txs| && Later(s.seqs, q')
    requires Shape(s.committed, q', tx')
    requires forall u :: 0 <= u < |s.txs| && u != t ==> Apart(tx'.writes, s.txs[u].writes)
    ensures Inv(s.(seqs := q', txs := s.txs[t := tx']))
  {
    var s' := s.(seqs := q', txs := s.txs[t := tx']);
    forall u | 0 <= u < |s'.txs| ensures Shape(s'.committed, s'.seqs, s'.txs[u]) {
      if u != t {
        PendingIsUnseen(s.committed, s.seqs, s.txs[u]);
        ShapeFrame(s.committed, s.committed, s.seqs, q', s.txs[u]);
      }
    }
    forall u, v | 0 <= u < |s'.txs| && 0 <= v < |s'.txs| && u != v ensures Apart(s'.txs[u].writes, s'.txs[v].writes) {
      if v == t {
        ApartSymmetric(tx'.writes, s.txs[u].writes);
      }
    }
  }

  lemma CommitAccounts(c: Tables, q: Sequences, tx: Tx)
    requires AccountsFit(c.accounts, q.account) && AccountShape(c, tx) && tx.pc.Commit?
    ensures AccountsFit(c.accounts + tx.writes.accounts, q.account)
    ensures (c.accounts + tx.writes.accounts).Keys == c.accounts.Keys
  {}

  lemma CommitEntries(c: Tables, q: Sequences, tx: Tx, accounts: map<int, Account>)
    requires EntriesFit(c.entries, q.entry, c.accounts) && EntryShape(c, q, tx) && tx.pc.Commit?
    requires AccountsExist(c, tx.args.transfer) && accounts.Keys == c.accounts.Keys
    ensures EntriesFit(c.entries + tx.writes.entries, q.entry, accounts)
  {
    assert forall id :: id in accounts <==> id in accounts.Keys;
  }

  lemma CommitKeys(c: Tables, q: Sequences, tx: Tx, k: KeyId)
    requires KeyShape(c, tx) && TransferShape(c, q, tx) && tx.pc.Commit?
    requires k in c.keys ==> Completed(c, k)
    requires k in Overlay(c, tx.writes).keys
    ensures Completed(Overlay(c, tx.writes), k)
  {
    if k in tx.writes.keys {
      assert tx.writes.keys[k].responseBody == Json(tx.result);
      assert tx.result.transfer.id in tx.writes.transfers;
    } else {
      assert c.keys[k].responseBody.result.transfer.id !in tx.writes.transfers;
    }
  }

  lemma {:induction false} CommitWellFormed(c: Tables, q: Sequences, tx: Tx)
    requires WellFormed(c, q) && Shape(c, q, tx) && tx.pc.Commit?
    ensures WellFormed(Overlay(c, tx.writes), q)
  {
    CommitAccounts(c, q, tx);
    CommitEntries(c, q, tx, c.accounts + tx.writes.accounts);
    forall k | k in Overlay(c, tx.writes).keys ensures Completed(Overlay(c, tx.writes), k) {
      CommitKeys(c, q, tx, k);
    }
  }

  /** A commit leaves every other transaction as it was. */
  lemma OverlayUnseen(c: Tables, w: Tables, v: Tables)
    requires Unseen(c, v) && Apart(v, w)
    ensures Unseen(Overlay(c, w), v)
  {}

  lemma {:induction false} CommitFrame(c: Tables, q: Sequences, w: Tables, tx: Tx)
    requires Shape(c, q, tx) && Apart(tx.writes, w)
    ensures Shape(Overlay(c, w), q, tx)
  {
    assert Unseen(Overlay(c, w), tx.writes) by {
      PendingIsUnseen(c, q, tx);
      OverlayUnseen(c, w, tx.writes);
    }
    ShapeFrame(c, Overlay(c, w), q, q, tx);
  }

  lemma {:induction false} CommitShapes(s: Db, t: nat, acknowledged: bool, u: nat)
    requires Inv(s) && t < |s.txs| && s.txs[t].pc.Commit? && u < |s.txs|
    ensures Shape(Overlay(s.committed, s.txs[t].writes), s.seqs, CommitTx(s, t, acknowledged).txs[u])
  {
    if u == t {
      EmptyShape(Overlay(s.committed, s.txs[t].writes), s.seqs, CommitTx(s, t, acknowledged).txs[u]);
    } else {
      CommitFrame(s.committed, s.seqs, s.txs[t].writes, s.txs[u]);
    }
  }

  lemma CommitApart(s: Db, t: nat, acknowledged: bool, u: nat, v: nat)
    requires Inv(s) && t < |s.txs| && s.txs[t].pc.Commit? && u < |s.txs| && v < |s.txs| && u != v
    ensures Apart(CommitTx(s, t, acknowledged).txs[u].writes, CommitTx(s, t, acknowledged).txs[v].writes)
  {
    assert Apart(s.txs[u].writes, s.txs[v].writes);
  }

  lemma {:induction false} CommitInv(s: Db, t: nat, acknowledged: bool)
    requires Inv(s) && t < |s.txs| && s.txs[t].pc.Commit?
    ensures Inv(CommitTx(s, t, acknowledged))
  {
    var s' := CommitTx(s, t, acknowledged);
    assert WellFormed(s'.committed, s'.seqs) by {
      CommitWellFormed(s.committed, s.seqs, s.txs[t]);
    }
    assert forall u :: 0 <= u < |s'.txs| ==> Shape(s'.committed, s'.seqs, s'.txs[u]) by {
      forall u | 0 <= u < |s'.txs| ensures Shape(s'.committed, s'.seqs, s'.txs[u]) {
        CommitShapes(s, t, acknowledged, u);
      }
    }
    assert forall u, v :: 0 <= u < |s'.txs| && 0 <= v < |s'.txs| && u != v ==> Apart(s'.txs[u].writes, s'.txs[v].writes) by {
      forall u, v | 0 <= u < |s'.txs| && 0 <= v < |s'.txs| && u != v ensures Apart(s'.txs[u].writes, s'.txs[v].writes) {
        CommitApart(s, t, acknowledged, u, v);
      }
    }
  }

  lemma {:induction false} OpenInv(s: Db, owner: string, currency: string)
    requires Inv(s)
    ensures Inv(OpenStep(s, owner, currency))
  {
    var s' := OpenStep(s, owner, currency);
    forall k | k in s'.committed.keys ensures Completed(s'.committed, k) {
      assert Completed(s.committed, k);
    }
    assert WellFormed(s'.committed, s'.seqs);
    forall u | 0 <= u < |s'.txs| ensures Shape(s'.committed, s'.seqs, s'.txs[u]) {
      PendingIsUnseen(s.committed, s.seqs, s.txs[u]);
      ShapeFrame(s.committed, s'.committed, s.seqs, s'.seqs, s.txs[u]);
    }
  }

  lemma {:induction false} StatementInv(s: Db, t: nat)
    requires Inv(s) && t < |s.txs| && !Blocked(s, t) && !s.txs[t].pc.Commit?
    ensures Inv(StatementStep(s, t))
  {
    var tx' := RunStatement(s.committed, s.seqs, s.txs[t]);
    StatementShape(s.committed, s.seqs, s.txs[t]);
    forall u | 0 <= u < |s.txs| && u != t ensures Apart(tx'.writes, s.txs[u].writes) {
      StatementApart(s, t, u);
    }
    LocalStepInv(s, t, Draw(s.seqs, s.txs[t].pc), tx');
  }

  lemma {:induction false} InterruptInv(s: Db, t: nat)
    requires Inv(s) && t < |s.txs|
    ensures Inv(s.(txs := s.txs[t := InterruptTx(s.txs[t])]))
  {
    var tx' := InterruptTx(s.txs[t]);
    assert tx' == s.txs[t] || tx'.writes == NO_ROWS by {
      assert Shape(s.committed, s.seqs, s.txs[t]);
    }
    if tx' != s.txs[t] {
      EmptyShape(s.committed, s.seqs, tx');
    }
    LocalStepInv(s, t, s.seqs, tx');
  }

  lemma {:induction false} StepInv(s: Db, a: Action)
    requires Inv(s)
    ensures Inv(Step(s, a))
  {
    match a
    case Statement(t) =>
      if t < |s.txs| && !Blocked(s, t) {
        if s.txs[t].pc.Commit? {
          CommitInv(s, t, true);
        } else {
          StatementInv(s, t);
        }
      }
    case Interrupt(t) => if t < |s.txs| { InterruptInv(s, t); }
    case LoseAck(t) => if t < |s.txs| && s.txs[t].pc.Commit? { CommitInv(s, t, false); }
    case OpenAccount(owner, currency) => OpenInv(s, owner, currency);
  }

  /** Row locks and claims are exclusive, and pending rows are up to date, in every
      reachable state. */
  lemma {:induction false} ExecInv(s: Db, schedule: seq<Action>)
    requires Initial(s)
    ensures Inv(Exec(s, schedule))
  {
    if schedule == [] {
      InitialInv(s);
    } else {
      ExecInv(s, schedule[..|schedule| - 1]);
      StepInv(Exec(s, schedule[..|schedule| - 1]), schedule[|schedule| - 1]);
    }
  }
}
