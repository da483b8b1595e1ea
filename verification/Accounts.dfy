/** POST /accounts: one account for each user and currency. */
module Accounts {
  import opened Schema
  import opened TransferStore
  import opened StoreInvariant
  import opened Serial
  import opened Serializability
  import opened TransferApi
  import opened ApiInvariant

  /** A known user without an account in this currency, whatever accounts in other currencies the
      user has and whatever other users have. */
  ghost predicate MayOpen(users: set<string>, accounts: map<int, Account>, owner: string, currency: string) {
    && owner in users
    && forall id :: id in accounts ==> accounts[id].owner != owner || accounts[id].currency != currency
  }

  /** accounts has exactly one row more: a new id, this owner, this currency, nothing on it. */
  ghost predicate Opens(accounts: map<int, Account>, accounts': map<int, Account>, owner: string, currency: string) {
    exists id :: id !in accounts && accounts' == accounts[id := Account(id, owner, 0, currency)]
  }

  lemma {:induction false} OpenStepOpens(s: Db, owner: string, currency: string)
    requires Inv(s)
    ensures var c, c' := s.committed, Step(s, OpenAccount(owner, currency)).committed;
      && c'.transfers == c.transfers && c'.entries == c.entries && c'.keys == c.keys
      && (if MayOpen(s.users, c.accounts, owner, currency) then Opens(c.accounts, c'.accounts, owner, currency)
          else c'.accounts == c.accounts)
  {
    var accounts := s.committed.accounts;
    if MayOpen(s.users, accounts, owner, currency) {
      assert s.seqs.account !in accounts;
      assert Opens(accounts, accounts[s.seqs.account := Account(s.seqs.account, owner, 0, currency)], owner, currency);
    }
  }

  /** The statement opens an account exactly for a known user who has none in that currency, and
      otherwise changes no row. */
  lemma {:induction false} OpenedExactlyOnce(s: Db, schedule: seq<Action>, owner: string, currency: string)
    requires Initial(s)
    ensures var c, c' := Exec(s, schedule).committed, Exec(s, schedule + [OpenAccount(owner, currency)]).committed;
      && c'.transfers == c.transfers && c'.entries == c.entries && c'.keys == c.keys
      && (if MayOpen(s.users, c.accounts, owner, currency) then Opens(c.accounts, c'.accounts, owner, currency)
          else c'.accounts == c.accounts)
  {
    ExecInv(s, schedule);
    CommitOrderSerializable(s, schedule);
    ExecSnoc(s, schedule, OpenAccount(owner, currency));
    OpenStepOpens(Exec(s, schedule), owner, currency);
  }

  lemma {:induction false} RequestOpens(m: Api, user: string, currency: string)
    requires Inv(m.db)
    ensures var c, c' := m.db.committed.accounts, ApiStep(m, Open(user, currency)).db.committed.accounts;
      if currency in {"USD", "EUR", "CAD"} && MayOpen(m.db.users, c, user, currency) then Opens(c, c', user, currency)
      else c' == c
  {
    OpenStepOpens(m.db, user, currency);
  }

  lemma {:induction false} UsersStay(a: Api, schedule: seq<ApiAction>)
    requires ApiInitial(a)
    ensures ApiExec(a, schedule).db.users == a.db.users
  {
    ApiRunsTheStore(a, schedule);
    CommitOrderSerializable(a.db, StoreSchedule(a, schedule));
  }

  /** The handler lets three currencies through. */
  lemma {:induction false} AccountsOnRequest(a: Api, schedule: seq<ApiAction>, user: string, currency: string)
    requires ApiInitial(a)
    ensures var c, c' := ApiExec(a, schedule).db.committed.accounts, ApiExec(a, schedule + [Open(user, currency)]).db.committed.accounts;
      if currency in {"USD", "EUR", "CAD"} && MayOpen(a.db.users, c, user, currency) then Opens(c, c', user, currency)
      else c' == c
  {
    UsersStay(a, schedule);
    assert Inv(ApiExec(a, schedule).db) by {
      ApiExecInv(a, schedule);
    }
    ApiExecSnoc(a, schedule, Open(user, currency));
    RequestOpens(ApiExec(a, schedule), user, currency);
  }

  /** UNIQUE (owner, currency). */
  ghost predicate OnePerCurrency(accounts: map<int, Account>) {
    forall i, j :: i in accounts && j in accounts && i != j ==>
      accounts[i].owner != accounts[j].owner || accounts[i].currency != accounts[j].currency
  }

  lemma EventKeepsOne(users: set<string>, c: Tables, e: Event)
    requires Legal(users, c, e) && OnePerCurrency(c.accounts)
    ensures OnePerCurrency(Apply(users, c, e).accounts)
  {}

  /** No user ever has two accounts in one currency. */
  lemma {:induction false} OneAccountPerCurrency(s: Db, schedule: seq<Action>)
    requires Initial(s) && OnePerCurrency(s.committed.accounts)
    ensures OnePerCurrency(Exec(s, schedule).committed.accounts)
  {
    if schedule != [] {
      var before, a := schedule[..|schedule| - 1], schedule[|schedule| - 1];
      var m := Exec(s, before);
      OneAccountPerCurrency(s, before);
      ExecInv(s, before);
      StepIsSerial(m, a);
      if EventOf(m, a) != [] {
        EventKeepsOne(m.users, m.committed, EventOf(m, a)[0]);
      }
    }
  }
}
