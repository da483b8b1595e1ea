/** The reference: a bank that handles one whole request at a time, with no locks, no pending
    rows and no lock order. A transfer is a direct debit of one balance and credit of another. */
module Serial {
  import opened Schema
  import opened TransferStore
  import opened StoreInvariant

  /** What a run commits, in commit order. The row ids a transfer drew are in its result. */
  datatype Event =
    | Transferred(t: nat, args: TxArgs, result: TransferResult)
    | Opened(account: Account)

  // ---------- one transfer, directly ----------

  /** Both new balances are in range. With equal ids the credit comes first. */
  predicate Affordable(c: map<int, Account>, a: TransferArgs)
    requires a.from in c && a.to in c
  {
    if a.from != a.to then
      InRange(c[a.from].balance + Negate(a.amount)) && InRange(c[a.to].balance + a.amount)
    else
      InRange(c[a.to].balance + a.amount) && InRange(c[a.to].balance + a.amount + Negate(a.amount))
  }

  predicate Unclaimed(keys: map<KeyId, KeyRow>, claim: Option<Claim>) {
    claim.Some? ==> claim.value.id !in keys
  }

  predicate Admissible(c: Tables, args: TxArgs) {
    Unclaimed(c.keys, args.claim) && AccountsExist(c, args.transfer) && Affordable(c.accounts, args.transfer)
  }

  function Debited(c: map<int, Account>, a: TransferArgs): Account
    requires a.from in c && a.to in c
  {
    if a.from != a.to then c[a.from].(balance := c[a.from].balance + Negate(a.amount))
    else c[a.from].(balance := c[a.from].balance + a.amount + Negate(a.amount))
  }

  function Credited(c: map<int, Account>, a: TransferArgs): Account
    requires a.to in c
  {
    c[a.to].(balance := c[a.to].balance + a.amount)
  }

  /** The accounts afterwards: credit one, debit the other. */
  function Moved(c: map<int, Account>, a: TransferArgs): map<int, Account>
    requires a.from in c && a.to in c
  {
    c[a.to := Credited(c, a)][a.from := Debited(c, a)]
  }

  /** The result a transfer returns when it draws these ids. */
  function Receipt(c: map<int, Account>, a: TransferArgs, transfer: int, fromEntry: int, toEntry: int): TransferResult
    requires a.from in c && a.to in c
  {
    TransferResult(
      Transfer(transfer, a.from, a.to, a.amount),
      Entry(fromEntry, a.from, Negate(a.amount)),
      Entry(toEntry, a.to, a.amount),
      Debited(c, a), Credited(c, a))
  }

  /** The tables afterwards. */
  function Booked(c: Tables, args: TxArgs, r: TransferResult): Tables
    requires AccountsExist(c, args.transfer)
  {
    Tables(
      Moved(c.accounts, args.transfer),
      c.transfers[r.transfer.id := r.transfer],
      c.entries[r.fromEntry.id := r.fromEntry][r.toEntry.id := r.toEntry],
      if args.claim.Some? then c.keys[args.claim.value.id := KeyRow(args.claim.value.requestHash, Json(r))] else c.keys)
  }

  // ---------- one event, and a whole history ----------

  predicate FreshIds(c: Tables, r: TransferResult) {
    && r.transfer.id !in c.transfers
    && r.fromEntry.id !in c.entries
    && r.toEntry.id !in c.entries
    && r.fromEntry.id != r.toEntry.id
  }

  /** The event succeeds on these tables, with the very result it carries. */
  predicate Legal(users: set<string>, c: Tables, e: Event) {
    match e
    case Transferred(_, args, r) =>
      && Admissible(c, args)
      && FreshIds(c, r)
      && r == Receipt(c.accounts, args.transfer, r.transfer.id, r.fromEntry.id, r.toEntry.id)
    case Opened(row) =>
      && row.id !in c.accounts && row.balance == 0
      && row.owner in users && !OwnerCurrencyTaken(c, row.owner, row.currency)
  }

  function Apply(users: set<string>, c: Tables, e: Event): Tables {
    if !Legal(users, c, e) then c else
    match e
    case Transferred(_, args, r) => Booked(c, args, r)
    case Opened(row) => c.(accounts := c.accounts[row.id := row])
  }

  function Replay(users: set<string>, c: Tables, h: seq<Event>): Tables {
    if h == [] then c else Apply(users, Replay(users, c, h[..|h| - 1]), h[|h| - 1])
  }

  /** Each event succeeds on the tables that the events before it leave. */
  predicate LegalHistory(users: set<string>, c: Tables, h: seq<Event>) {
    h != [] ==>
      && LegalHistory(users, c, h[..|h| - 1])
      && Legal(users, Replay(users, c, h[..|h| - 1]), h[|h| - 1])
  }

  lemma ReplaySnoc(users: set<string>, c: Tables, h: seq<Event>, e: Event)
    ensures Replay(users, c, h + [e]) == Apply(users, Replay(users, c, h), e)
    ensures LegalHistory(users, c, h + [e]) <==> LegalHistory(users, c, h) && Legal(users, Replay(users, c, h), e)
  {
    assert (h + [e])[..|h|] == h;
  }

  // ---------- the history of a run ----------

  /** What one step commits: at most one event. */
  function EventOf(s: Db, a: Action): seq<Event> {
    match a
    case Statement(t) =>
      if t < |s.txs| && s.txs[t].pc.Commit? then [Transferred(t, s.txs[t].args, s.txs[t].result)] else []
    case LoseAck(t) =>
      if t < |s.txs| && s.txs[t].pc.Commit? then [Transferred(t, s.txs[t].args, s.txs[t].result)] else []
    case Interrupt(_) => []
    case OpenAccount(owner, currency) =>
      if CanOpen(s, owner, currency) then [Opened(Account(s.seqs.account, owner, 0, currency))] else []
  }

  function History(s: Db, schedule: seq<Action>): seq<Event> {
    if schedule == [] then []
    else
      History(s, schedule[..|schedule| - 1]) +
      EventOf(Exec(s, schedule[..|schedule| - 1]), schedule[|schedule| - 1])
  }
}
