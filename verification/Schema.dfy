/** The rows of the bank's tables, and the values the store's calls take and return. */
module Schema {

  const INT64_MIN: int := -0x8000_0000_0000_0000
  const INT64_MAX: int := 0x7fff_ffff_ffff_ffff

  type Int64 = x: int | INT64_MIN <= x <= INT64_MAX

  /** Unary minus on a 64-bit integer: the smallest value wraps onto itself. */
  function Negate(x: Int64): Int64 {
    if x == INT64_MIN then x else -x
  }

  /** It is the negative modulo 2^64, so in 64 bits there is no other. */
  lemma NegateIsModular(x: Int64)
    ensures (x + Negate(x)) % 0x1_0000_0000_0000_0000 == 0
  {}

  datatype Option<+T> = None | Some(value: T)

  /** What one SQL statement hands back: a row, or the error the driver reports. */
  datatype Reply<+T> = Row(row: T) | Err(error: Error)

  datatype Error =
    | UniqueViolation        // primary key on (owner, key)
    | ForeignKeyViolation    // an account that does not exist
    | BalanceCheckViolation  // accounts_balance_non_negative
    | OutOfRange             // bigint overflow
    | NoRows                 // sql.ErrNoRows
    | Interrupted            // cancellation, lost connection, any error outside the statements

  datatype Account = Account(id: int, owner: string, balance: int, currency: string)
  datatype Transfer = Transfer(id: int, from: int, to: int, amount: int)
  datatype Entry = Entry(id: int, account: int, amount: int)

  datatype TransferArgs = TransferArgs(from: Int64, to: Int64, amount: Int64)

  datatype TransferResult = TransferResult(
    transfer: Transfer, fromEntry: Entry, toEntry: Entry, fromAccount: Account, toAccount: Account)

  /** The zero value a result has before its fields are filled in. */
  const ZERO_RESULT := TransferResult(
    Transfer(0, 0, 0, 0), Entry(0, 0, 0), Entry(0, 0, 0), Account(0, "", 0, ""), Account(0, "", 0, ""))

  /** SHA-256 as a collision-free hash: equal digests have equal preimages. */
  datatype Digest = Sha256(preimage: string)

  /** A response body: the empty default of the column, or the JSON text of a result. */
  datatype Body = Empty | Json(result: TransferResult)

  datatype KeyId = KeyId(owner: string, key: string)
  datatype KeyRow = KeyRow(requestHash: Digest, responseBody: Body)

  datatype Claim = ClaimOf(id: KeyId, requestHash: Digest)

  /** The arguments of TransferTx (no claim) and of IdempotentTransferTx (a claim). */
  datatype TxArgs = TxArgs(transfer: TransferArgs, claim: Option<Claim>)

  datatype Tables = Tables(
    accounts: map<int, Account>,
    transfers: map<int, Transfer>,
    entries: map<int, Entry>,
    keys: map<KeyId, KeyRow>)

  const NO_ROWS := Tables(map[], map[], map[], map[])

  /** The rows of `below`, with those of `above` replacing or joining them. */
  function Overlay(below: Tables, above: Tables): Tables {
    Tables(below.accounts + above.accounts, below.transfers + above.transfers,
           below.entries + above.entries, below.keys + above.keys)
  }
}
