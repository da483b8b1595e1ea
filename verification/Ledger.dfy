/** What the books say in every committed state: balances agree with the entries, entries come
    in pairs, and money is neither made nor lost. */
module Ledger {
  import opened Schema
  import opened TransferStore
  import opened StoreInvariant
  import opened Serial
  import opened Serializability

  // ---------- sums over tables ----------

  /** The sum of an account's entries among the ids below n. */
  function EntrySum(entries: map<int, Entry>, account: int, n: nat): int {
    if n == 0 then 0 else
    EntrySum(entries, account, n - 1) +
    if n - 1 in entries && entries[n - 1].account == account then entries[n - 1].amount else 0
  }

  lemma {:induction false} EntrySumInsert(entries: map<int, Entry>, e: int, row: Entry, account: int, n: nat)
    requires e !in entries && 0 <= e
    ensures EntrySum(entries[e := row], account, n) ==
      EntrySum(entries, account, n) + if e < n && row.account == account then row.amount else 0
  {
    if n > 0 {
      EntrySumInsert(entries, e, row, account, n - 1);
    }
  }

  lemma {:induction false} EntrySumUnknown(entries: map<int, Entry>, account: int, n: nat)
    requires forall e :: e in entries ==> entries[e].account != account
    ensures EntrySum(entries, account, n) == 0
  {
    if n > 0 {
      EntrySumUnknown(entries, account, n - 1);
    }
  }

  /** The money held in a currency, over the account ids below n. */
  function CurrencyTotal(accounts: map<int, Account>, currency: string, n: nat): int {
    if n == 0 then 0 else
    CurrencyTotal(accounts, currency, n - 1) +
    if n - 1 in accounts && accounts[n - 1].currency == currency then accounts[n - 1].balance else 0
  }

  lemma {:induction false} CurrencyTotalUpdate(accounts: map<int, Account>, id: int, row: Account, currency: string, n: nat)
    requires id in accounts ==> accounts[id].currency == row.currency
    ensures CurrencyTotal(accounts[id := row], currency, n) ==
      CurrencyTotal(accounts, currency, n) +
      if 0 <= id < n && row.currency == currency
      then row.balance - (if id in accounts then accounts[id].balance else 0) else 0
  {
    if n > 0 {
      CurrencyTotalUpdate(accounts, id, row, currency, n - 1);
    }
  }

  // ---------- accounts stay, with their owner and currency ----------

  ghost predicate SameColumns(c: Tables, c': Tables) {
    forall id :: id in c.accounts ==>
      && id in c'.accounts
      && c'.accounts[id].id == c.accounts[id].id
      && c'.accounts[id].owner == c.accounts[id].owner
      && c'.accounts[id].currency == c.accounts[id].currency
  }

  lemma EventKeepsColumns(users: set<string>, c: Tables, e: Event)
    requires Legal(users, c, e)
    ensures SameColumns(c, Apply(users, c, e))
  {}

  lemma {:induction false} StepKeepsColumns(s: Db, a: Action)
    requires Inv(s)
    ensures SameColumns(s.committed, Step(s, a).committed)
  {
    StepIsSerial(s, a);
    if EventOf(s, a) != [] {
      EventKeepsColumns(s.users, s.committed, EventOf(s, a)[0]);
    }
  }

  lemma {:induction false} AccountsStay(s: Db, schedule: seq<Action>)
    requires Initial(s)
    ensures SameColumns(s.committed, Exec(s, schedule).committed)
  {
    if schedule != [] {
      AccountsStay(s, schedule[..|schedule| - 1]);
      ExecInv(s, schedule[..|schedule| - 1]);
      StepKeepsColumns(Exec(s, schedule[..|schedule| - 1]), schedule[|schedule| - 1]);
    }
  }

  // ---------- balances agree with entries ----------

  /** How far a balance is from the sum of its account's entries. */
  function Opening(c: Tables, id: int, n: nat): int
    requires id in c.accounts
  {
    c.accounts[id].balance - EntrySum(c.entries, id, n)
  }

  lemma TransferKeepsOpening(c: Tables, users: set<string>, e: Event, id: int, n: nat)
    requires e.Transferred? && Legal(users, c, e) && id in c.accounts
    requires 0 <= e.result.fromEntry.id < n && 0 <= e.result.toEntry.id < n
    ensures id in Apply(users, c, e).accounts && Opening(Apply(users, c, e), id, n) == Opening(c, id, n)
  {
    var r := e.result;
    EntrySumInsert(c.entries, r.fromEntry.id, r.fromEntry, id, n);
    EntrySumInsert(c.entries[r.fromEntry.id := r.fromEntry], r.toEntry.id, r.toEntry, id, n);
  }

  lemma StepSequences(s: Db, a: Action)
    ensures Later(s.seqs, Step(s, a).seqs)
  {}

  /** The state after any step keeps each account's opening, and a new account has none. */
  lemma StepKeepsOpening(s: Db, a: Action, id: int, n: nat)
    requires Inv(s) && s.seqs.entry <= n && id in Step(s, a).committed.accounts
    ensures Opening(Step(s, a).committed, id, n) == if id in s.committed.accounts then Opening(s.committed, id, n) else 0
  {
    StepIsSerial(s, a);
    var event := EventOf(s, a);
    if event != [] {
      var e := event[0];
      if e.Transferred? {
        assert Shape(s.committed, s.seqs, s.txs[e.t]);
        TransferKeepsOpening(s.committed, s.users, e, id, n);
      } else if id !in s.committed.accounts {
        EntrySumUnknown(s.committed.entries, id, n);
      }
    }
  }

  /** Ledger agreement: after any schedule, every balance is what the account started with
      plus the sum of the entries booked on it since; an account opened on the way holds the
      sum of all its entries. */
  lemma {:induction false} LedgerAgreement(s: Db, schedule: seq<Action>, id: int, n: nat)
    requires Initial(s) && Exec(s, schedule).seqs.entry <= n
    requires id in Exec(s, schedule).committed.accounts
    ensures Opening(Exec(s, schedule).committed, id, n) == if id in s.committed.accounts then Opening(s.committed, id, n) else 0
  {
    if schedule != [] {
      var before, a := schedule[..|schedule| - 1], schedule[|schedule| - 1];
      var m := Exec(s, before);
      ExecInv(s, before);
      StepSequences(m, a);
      StepKeepsOpening(m, a, id, n);
      if id in m.committed.accounts {
        LedgerAgreement(s, before, id, n);
      } else {
        AccountsStay(s, before);
      }
    }
  }

  /** No overdraft: whatever the schedule, every committed balance meets the CHECK and fits
      its column. */
  lemma NoOverdraft(s: Db, schedule: seq<Action>, id: int)
    requires Initial(s) && id in Exec(s, schedule).committed.accounts
    ensures 0 <= Exec(s, schedule).committed.accounts[id].balance <= INT64_MAX
  {
    ExecInv(s, schedule);
  }

  // ---------- one transfer row, two entries ----------

  function Transfers(h: seq<Event>): nat {
    if h == [] then 0 else Transfers(h[..|h| - 1]) + if h[|h| - 1].Transferred? then 1 else 0
  }

  /** The rows a committed transfer leaves: itself, (-amount) on one account, (+amount) on the other. */
  ghost predicate RowsOf(c: Tables, e: Event)
    requires e.Transferred?
  {
    var a, r := e.args.transfer, e.result;
    && r.transfer.id in c.transfers && c.transfers[r.transfer.id] == Transfer(r.transfer.id, a.from, a.to, a.amount)
    && r.fromEntry.id in c.entries && c.entries[r.fromEntry.id] == Entry(r.fromEntry.id, a.from, Negate(a.amount))
    && r.toEntry.id in c.entries && c.entries[r.toEntry.id] == Entry(r.toEntry.id, a.to, a.amount)
    && r.fromEntry.id != r.toEntry.id
  }

  ghost predicate RowsStay(c: Tables, c': Tables) {
    && (forall id :: id in c.transfers ==> id in c'.transfers && c'.transfers[id] == c.transfers[id])
    && (forall id :: id in c.entries ==> id in c'.entries && c'.entries[id] == c.entries[id])
  }

  lemma EventRows(users: set<string>, c: Tables, e: Event)
    requires Legal(users, c, e)
    ensures e.Transferred? ==> RowsOf(Apply(users, c, e), e)
    ensures RowsStay(c, Apply(users, c, e))
  {}

  lemma EventCounts(users: set<string>, c: Tables, e: Event)
    requires Legal(users, c, e)
    ensures |Apply(users, c, e).transfers| == |c.transfers| + (if e.Transferred? then 1 else 0)
    ensures |Apply(users, c, e).entries| == |c.entries| + (if e.Transferred? then 2 else 0)
  {}

  lemma {:induction false} HistoryCounts(users: set<string>, c: Tables, h: seq<Event>)
    requires LegalHistory(users, c, h)
    ensures |Replay(users, c, h).transfers| == |c.transfers| + Transfers(h)
    ensures |Replay(users, c, h).entries| == |c.entries| + 2 * Transfers(h)
  {
    if h != [] {
      var n := |h| - 1;
      HistoryCounts(users, c, h[..n]);
      EventCounts(users, Replay(users, c, h[..n]), h[n]);
    }
  }

  lemma RowsOfStay(users: set<string>, c: Tables, e: Event, next: Event)
    requires e.Transferred? && RowsOf(c, e) && Legal(users, c, next)
    ensures RowsOf(Apply(users, c, next), e)
  {
    EventRows(users, c, next);
  }

  lemma {:induction false} HistoryRows(users: set<string>, c: Tables, h: seq<Event>, k: nat)
    requires LegalHistory(users, c, h) && k < |h| && h[k].Transferred?
    ensures RowsOf(Replay(users, c, h), h[k])
  {
    var n := |h| - 1;
    var d := Replay(users, c, h[..n]);
    if k == n {
      EventRows(users, d, h[k]);
    } else {
      assert h[..n][k] == h[k];
      HistoryRows(users, c, h[..n], k);
      RowsOfStay(users, d, h[k], h[n]);
    }
  }

  /** Two transfers have no row in common. */
  predicate RowsApart(e: Event, e': Event)
    requires e.Transferred? && e'.Transferred?
  {
    && e.result.transfer.id != e'.result.transfer.id
    && {e.result.fromEntry.id, e.result.toEntry.id} !! {e'.result.fromEntry.id, e'.result.toEntry.id}
  }

  lemma NextRowsApart(users: set<string>, c: Tables, e: Event, next: Event)
    requires e.Transferred? && next.Transferred? && RowsOf(c, e) && Legal(users, c, next)
    ensures RowsApart(e, next)
  {}

  lemma {:induction false} HistoryRowsApart(users: set<string>, c: Tables, h: seq<Event>, j: nat, k: nat)
    requires LegalHistory(users, c, h) && j < k < |h| && h[j].Transferred? && h[k].Transferred?
    ensures RowsApart(h[j], h[k])
  {
    var n := |h| - 1;
    assert h[..n][j] == h[j];
    if k == n {
      HistoryRows(users, c, h[..n], j);
      NextRowsApart(users, Replay(users, c, h[..n]), h[j], h[k]);
    } else {
      assert h[..n][k] == h[k];
      HistoryRowsApart(users, c, h[..n], j, k);
    }
  }

  lemma {:induction false} HistoryRowsStay(users: set<string>, c: Tables, h: seq<Event>)
    requires LegalHistory(users, c, h)
    ensures RowsStay(c, Replay(users, c, h))
  {
    if h != [] {
      var n := |h| - 1;
      HistoryRowsStay(users, c, h[..n]);
      EventRows(users, Replay(users, c, h[..n]), h[n]);
    }
  }

  lemma {:induction false} HistoryRowsAreNew(users: set<string>, c: Tables, h: seq<Event>, k: nat)
    requires LegalHistory(users, c, h) && k < |h| && h[k].Transferred?
    ensures FreshIds(c, h[k].result)
  {
    var n := |h| - 1;
    if k == n {
      HistoryRowsStay(users, c, h[..n]);
    } else {
      assert h[..n][k] == h[k];
      HistoryRowsAreNew(users, c, h[..n], k);
    }
  }

  /** Entries split into one (-amount, +amount) pair for each transfer row: a run adds exactly
      as many transfer rows as transfers committed and twice as many entries, each committed
      transfer has its row and its pair, none of them was there before, and no two transfers
      share one. The rows that were there before stay as they were. */
  lemma {:induction false} EntriesComeInPairs(s: Db, schedule: seq<Action>)
    requires Initial(s)
    ensures var c, h := Exec(s, schedule).committed, History(s, schedule);
      && |c.transfers| - |s.committed.transfers| == Transfers(h)
      && |c.entries| - |s.committed.entries| == 2 * Transfers(h)
      && RowsStay(s.committed, c)
      && (forall k :: 0 <= k < |h| && h[k].Transferred? ==> RowsOf(c, h[k]) && FreshIds(s.committed, h[k].result))
      && (forall j, k :: 0 <= j < k < |h| && h[j].Transferred? && h[k].Transferred? ==> RowsApart(h[j], h[k]))
  {
    CommitOrderSerializable(s, schedule);
    var h := History(s, schedule);
    HistoryCounts(s.users, s.committed, h);
    HistoryRowsStay(s.users, s.committed, h);
    forall k | 0 <= k < |h| && h[k].Transferred?
      ensures RowsOf(Exec(s, schedule).committed, h[k]) && FreshIds(s.committed, h[k].result)
    {
      HistoryRows(s.users, s.committed, h, k);
      HistoryRowsAreNew(s.users, s.committed, h, k);
    }
    forall j, k | 0 <= j < k < |h| && h[j].Transferred? && h[k].Transferred? ensures RowsApart(h[j], h[k]) {
      HistoryRowsApart(s.users, s.committed, h, j, k);
    }
  }

  /** A recorded result carries the rows its arguments ask for. */
  lemma {:induction false} HistoryResult(users: set<string>, c: Tables, h: seq<Event>, x: nat)
    requires LegalHistory(users, c, h) && x < |h| && h[x].Transferred?
    ensures var t, r := h[x].args.transfer, h[x].result;
      && r.transfer == Transfer(r.transfer.id, t.from, t.to, t.amount)
      && r.fromEntry == Entry(r.fromEntry.id, t.from, Negate(t.amount))
      && r.toEntry == Entry(r.toEntry.id, t.to, t.amount)
  {
    var n := |h| - 1;
    if x < n {
      assert h[..n][x] == h[x];
      HistoryResult(users, c, h[..n], x);
    }
  }

  /** The rows of a committed transaction, in its result and in the tables. */
  lemma {:induction false} CommittedRows(s: Db, schedule: seq<Action>, t: nat)
    requires Initial(s) && t < |s.txs| && t < |Exec(s, schedule).txs| && Won(Exec(s, schedule).txs[t])
    ensures var a, r, c := s.txs[t].args.transfer, Exec(s, schedule).txs[t].result, Exec(s, schedule).committed;
      && r.transfer == Transfer(r.transfer.id, a.from, a.to, a.amount)
      && r.fromEntry == Entry(r.fromEntry.id, a.from, Negate(a.amount))
      && r.toEntry == Entry(r.toEntry.id, a.to, a.amount)
      && r.transfer.id in c.transfers && c.transfers[r.transfer.id] == r.transfer
      && r.fromEntry.id in c.entries && c.entries[r.fromEntry.id] == r.fromEntry
      && r.toEntry.id in c.entries && c.entries[r.toEntry.id] == r.toEntry
  {
    var h := History(s, schedule);
    HistoryIsTheCommitted(s, schedule, t);
    CommitOrderSerializable(s, schedule);
    var x :| 0 <= x < |h| && h[x] == Transferred(t, s.txs[t].args, Exec(s, schedule).txs[t].result);
    HistoryResult(s.users, s.committed, h, x);
    HistoryRows(s.users, s.committed, h, x);
  }

  // ---------- conservation ----------

  /** A transfer between accounts of one currency, of an amount that can be negated. */
  predicate Balanced(c: Tables, a: TransferArgs) {
    && AccountsExist(c, a)
    && c.accounts[a.from].currency == c.accounts[a.to].currency
    && a.amount != INT64_MIN
  }

  lemma TransferConserves(c: Tables, a: TransferArgs, currency: string, n: nat)
    requires Balanced(c, a) && 0 <= a.from < n && 0 <= a.to < n
    ensures CurrencyTotal(Moved(c.accounts, a), currency, n) == CurrencyTotal(c.accounts, currency, n)
  {
    CurrencyTotalUpdate(c.accounts, a.to, Credited(c.accounts, a), currency, n);
    CurrencyTotalUpdate(c.accounts[a.to := Credited(c.accounts, a)], a.from, Debited(c.accounts, a), currency, n);
  }

  /** No step changes the money held in a currency, unless it commits a transfer that is not
      balanced. */
  lemma StepConserves(s: Db, a: Action, currency: string, n: nat)
    requires Inv(s) && s.seqs.account <= n
    requires EventOf(s, a) != [] && EventOf(s, a)[0].Transferred? ==> Balanced(s.committed, EventOf(s, a)[0].args.transfer)
    ensures CurrencyTotal(Step(s, a).committed.accounts, currency, n) == CurrencyTotal(s.committed.accounts, currency, n)
  {
    StepIsSerial(s, a);
    var event := EventOf(s, a);
    if event != [] {
      var e := event[0];
      if e.Transferred? {
        TransferConserves(s.committed, e.args.transfer, currency, n);
      } else {
        CurrencyTotalUpdate(s.committed.accounts, e.account.id, e.account, currency, n);
      }
    }
  }
}
