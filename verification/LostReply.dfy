/** One run in which a failed request leaves a trace: a payment whose COMMIT loses its reply. */
module LostReply {
  import opened Schema
  import opened TransferStore
  import opened Fingerprint
  import opened TransferApi
  import opened MemoTable

  const PAYMENT := Request("ann", "", TransferRequest(1, 2, 10, "USD"))
  const ANN := Account(1, "ann", 10, "USD")
  const BOB := Account(2, "bob", 0, "USD")
  const OPENING := Tables(map[1 := ANN, 2 := BOB], map[], map[], map[])

  /** A server that has nothing to do but one payment without a key. */
  function Paying(seqs: Sequences, phase: Phase, tx: Tx): Api {
    Api(Db({"ann", "bob"}, OPENING, seqs, [tx]), [Handler(PAYMENT, phase)])
  }

  function Arrival(): Api {
    Paying(Sequences(3, 1, 1), ReadFrom, NewTx(ArgsOf(PAYMENT)))
  }

  /** Two reads and six statements, and the COMMIT that loses its reply. */
  function Schedule(): seq<ApiAction> {
    [Advance(0), Advance(0), Advance(0), Advance(0), Advance(0), Advance(0), Advance(0), Advance(0), DropAck(0)]
  }

  lemma {:induction false} PaymentReads()
    ensures ApiExec(Arrival(), Schedule()[..2]) == Paying(Sequences(3, 1, 1), Running, NewTx(ArgsOf(PAYMENT)))
  {
    var s, tx := Schedule(), NewTx(ArgsOf(PAYMENT));
    assert CheckFrom(OPENING, PAYMENT) == ReadTo && CheckTo(OPENING, PAYMENT) == Running;
    assert s[..0] == [] && s[..1] == s[..0] + [s[0]] && s[..2] == s[..1] + [s[1]];
    ApiExecSnoc(Arrival(), s[..0], s[0]);
    assert ApiExec(Arrival(), s[..1]) == Paying(Sequences(3, 1, 1), ReadTo, tx);
    ApiExecSnoc(Arrival(), s[..1], s[1]);
  }

  lemma {:induction false} PaymentGoesOn(k: nat, q: Sequences, tx: Tx, tx': Tx)
    requires k < 8 && ApiExec(Arrival(), Schedule()[..k]) == Paying(q, Running, tx)
    requires tx' == RunStatement(OPENING, q, tx) && !tx.pc.Commit? && !tx'.pc.Done?
    ensures ApiExec(Arrival(), Schedule()[..k + 1]) == Paying(Draw(q, tx.pc), Running, tx')
  {
    var s, m := Schedule(), Paying(q, Running, tx);
    assert s[k] == Advance(0) && s[..k + 1] == s[..k] + [s[k]];
    ApiExecSnoc(Arrival(), s[..k], s[k]);
    assert !Blocked(m.db, 0);
    assert [tx][0 := tx'] == [tx'];
    assert m.handlers[0 := m.handlers[0]] == m.handlers;
  }

  const BOOKED := TransferResult(
    Transfer(1, 1, 2, 10), Entry(1, 1, -10), Entry(2, 2, 10), ANN.(balance := 0), BOB.(balance := 10))

  /** The payment with its three rows inserted, with the debit, and when it comes to its COMMIT. */
  function InsertedTx(): Tx {
    Tx(ArgsOf(PAYMENT), AddFirst,
       Tables(map[], map[1 := BOOKED.transfer], map[1 := BOOKED.fromEntry, 2 := BOOKED.toEntry], map[]),
       BOOKED.(fromAccount := ZERO_RESULT.fromAccount, toAccount := ZERO_RESULT.toAccount))
  }

  function DebitedTx(): Tx {
    InsertedTx().(pc := AddSecond,
      writes := InsertedTx().writes.(accounts := map[1 := BOOKED.fromAccount]),
      result := BOOKED.(toAccount := ZERO_RESULT.toAccount))
  }

  function PaidTx(): Tx {
    DebitedTx().(pc := Commit,
      writes := DebitedTx().writes.(accounts := map[1 := BOOKED.fromAccount, 2 := BOOKED.toAccount]),
      result := BOOKED)
  }

  /** The payment with its transfer row inserted. */
  function RecordedTx(): Tx {
    Tx(ArgsOf(PAYMENT), InsertFromEntry, NO_ROWS.(transfers := map[1 := BOOKED.transfer]), ZERO_RESULT.(transfer := BOOKED.transfer))
  }

  lemma {:induction false} PaymentIsRecorded()
    ensures ApiExec(Arrival(), Schedule()[..4]) == Paying(Sequences(3, 2, 1), Running, RecordedTx())
  {
    var q, tx := Sequences(3, 1, 1), NewTx(ArgsOf(PAYMENT));
    var tx' := tx.(pc := InsertTransfer);
    assert RunInsertTransfer(OPENING, q, tx') == RecordedTx();
    PaymentReads();
    PaymentGoesOn(2, q, tx, tx');
    PaymentGoesOn(3, q, tx', RecordedTx());
  }

  lemma {:induction false} PaymentInserts()
    ensures ApiExec(Arrival(), Schedule()[..6]) == Paying(Sequences(3, 2, 3), Running, InsertedTx())
  {
    var q, q' := Sequences(3, 2, 1), Sequences(3, 2, 2);
    var tx' := RunInsertFromEntry(OPENING, q, RecordedTx());
    assert RunInsertToEntry(OPENING, q', tx') == InsertedTx();
    PaymentIsRecorded();
    PaymentGoesOn(4, q, RecordedTx(), tx');
    PaymentGoesOn(5, q', tx', InsertedTx());
  }

  lemma PaymentDebits(q: Sequences)
    ensures RunStatement(OPENING, q, InsertedTx()) == DebitedTx()
  {
    assert AddAccountBalance(OPENING.accounts, map[], 1, -10) == Row(BOOKED.fromAccount);
  }

  lemma PaymentCredits(q: Sequences)
    ensures RunStatement(OPENING, q, DebitedTx()) == PaidTx()
  {
    assert AddAccountBalance(OPENING.accounts, DebitedTx().writes.accounts, 2, 10) == Row(BOOKED.toAccount);
  }

  lemma {:induction false} PaymentIsDebited()
    ensures ApiExec(Arrival(), Schedule()[..7]) == Paying(Sequences(3, 2, 3), Running, DebitedTx())
  {
    PaymentInserts();
    PaymentDebits(Sequences(3, 2, 3));
    PaymentGoesOn(6, Sequences(3, 2, 3), InsertedTx(), DebitedTx());
  }

  lemma {:induction false} PaymentReachesCommit()
    ensures ApiExec(Arrival(), Schedule()[..8]) == Paying(Sequences(3, 2, 3), Running, PaidTx())
  {
    PaymentIsDebited();
    PaymentCredits(Sequences(3, 2, 3));
    PaymentGoesOn(7, Sequences(3, 2, 3), DebitedTx(), PaidTx());
  }

  lemma ArrivalIsInitial()
    ensures ApiInitial(Arrival())
  {}

  lemma PaidTables()
    ensures Overlay(OPENING, PaidTx().writes) == PaidTx().writes
  {}

  /** "A failed request leaves no trace" is false: this one request is answered 500, and yet its
      10 have moved and its transfer and entries are booked. */
  lemma {:induction false} LostReplyLeavesATrace()
    ensures ApiInitial(Arrival()) && !Answered(ApiExec(Arrival(), Schedule()[..8]), 0)
    ensures var m := ApiExec(Arrival(), Schedule());
      && m.handlers == [Handler(PAYMENT, Finished(InternalError))]
      && m.db.committed.accounts == map[1 := ANN.(balance := 0), 2 := BOB.(balance := 10)]
      && m.db.committed.transfers == map[1 := Transfer(1, 1, 2, 10)]
      && m.db.committed.entries == map[1 := Entry(1, 1, -10), 2 := Entry(2, 2, 10)]
  {
    var s := Schedule();
    ArrivalIsInitial();
    PaymentReachesCommit();
    assert s == s[..8] + [s[8]];
    ApiExecSnoc(Arrival(), s[..8], s[8]);
    TxStepCommits(ApiExec(Arrival(), s[..8]), 0, LoseAck(0));
    PaidTables();
  }
}
