/** The transaction record and the fixed-length day arithmetic used throughout. */
module Transactions {

  /** Milliseconds in one day. */
  const DAY_MS: int := 86_400_000

  datatype TxType = Deposit | Withdrawal

  /** The string stored in the dataset's `transaction_type` field. */
  function TypeName(k: TxType): (s: string)
    ensures s == "deposit" <==> k == Deposit
    ensures s == "withdrawal" <==> k == Withdrawal
  {
    match k
    case Deposit => "deposit"
    case Withdrawal => "withdrawal"
  }

  /** One entry of the static dataset; `amount` is a whole number of minor
      currency units and `date` a millisecond timestamp. */
  datatype Transaction = Transaction(
    date: int,
    amount: int,
    txType: TxType,
    currency: string,
    account: string,
    industry: string,
    state: string)

  /** Midnight of the day containing `t` (`setHours(0, 0, 0, 0)`), with days of
      exactly `DAY_MS` milliseconds. */
  function DayStart(t: int): (d: int)
    ensures d <= t < d + DAY_MS
    ensures d % DAY_MS == 0
  {
    t - t % DAY_MS
  }

  /** The last millisecond of the day containing `t` (`setHours(23, 59, 59, 999)`). */
  function EndOfDay(t: int): (e: int)
    ensures t <= e < t + DAY_MS
    ensures DayStart(e) == DayStart(t)
    ensures DayStart(e + 1) == DayStart(t) + DAY_MS
    ensures e != 0
  {
    DayStart(t) + DAY_MS - 1
  }
}
