/** The vocabulary of the COIN ledger: identifiers, statuses, errors and the row types
    of the tables the ledger is made of. */
module Domain {

  type MerchantNo = string
  type AccountNo = string
  type TxnNo = string

  /** A UTC calendar date, as the number of days since 1970-01-01. */
  type Date = int

  /** 9999-12-31, the expiry date of the book that never expires. */
  const NO_EXPIRE: Date := 2932896

  /** The largest whole number of days in a Go `time.Duration`; `Time.Sub` saturates there. */
  const MAX_DAYS: int := 106751

  /** A Go duration counts nanoseconds in 64 bits; 106751 days fit, one more does not. */
  lemma MaxDaysFits()
    ensures var day := 24 * 60 * 60 * 1000000000;
            MAX_DAYS * day < 0x8000_0000_0000_0000 <= (MAX_DAYS + 1) * day
  {
  }

  /** The days of the Gregorian years before year `y`. */
  function DaysBefore(y: nat): nat
    requires y > 0
  {
    365 * (y - 1) + (y - 1) / 4 - (y - 1) / 100 + (y - 1) / 400
  }

  /** The no-expire date is the day before 10000-01-01, counted from 1970-01-01. */
  lemma NoExpireIsLast()
    ensures NO_EXPIRE + 1 == DaysBefore(10000) - DaysBefore(1970)
  {
  }

  datatype Option<+T> = None | Some(value: T)

  datatype Result<+T> = Ok(value: T) | Err(error: Error)

  datatype Error =
    | AccountResolveFailed
    | InsufficientBalance
    | TxnNotFound
    | TxnStatusInvalid
    | RefundAmountExceeded
    | RefundOriginBookTraceMissing
    | AccountForbidDebit
    | AccountForbidCredit
    | AccountForbidTransfer
    | DuplicateOutTradeNo
    | AccountNoExists
    | InvalidMerchantNo
    | CodeAllocatorUnavailable
    | Infrastructure

  datatype Status = Init | PaySuccess | RecvSuccess | Failed

  datatype BizType = Transfer | Refund

  datatype Scene = Issue | Consume | P2P | Adjust | ExpireWriteoff | NoScene

  /** One row of `account_book`: the money of one account that expires on one date. */
  datatype Book = Book(expireAt: Date, balance: int)

  /** A signed amount to apply to the book of one expiry date. */
  datatype Part = Part(expireAt: Date, amount: int)

  /** A change worked out for one book before it is written. */
  datatype Planned = Planned(expireAt: Date, delta: int, before: int, after: int)

  datatype Account = Account(
    merchant: MerchantNo,
    allowOverdraft: bool,
    overdraftLimit: nat,
    allowDebitOut: bool,
    allowCreditIn: bool,
    allowTransfer: bool,
    bookEnabled: bool,
    balance: int)

  /** One row of `txn`; a NULL account number is the empty string. */
  datatype Txn = Txn(
    merchant: MerchantNo,
    outTradeNo: string,
    biz: BizType,
    scene: Scene,
    debit: AccountNo,
    credit: AccountNo,
    creditExpireAt: Option<Date>,
    amount: int,
    status: Status,
    refundOf: Option<TxnNo>,
    refundable: int)

  /** One row of `account_change_log`. */
  datatype AccountChange = AccountChange(
    txn: TxnNo, account: AccountNo, delta: int, before: int, after: int)

  /** One row of `account_book_change_log`; `createdOn` is the UTC date of `created_at`. */
  datatype BookChange = BookChange(
    txn: TxnNo, account: AccountNo, expireAt: Date, delta: int, before: int, after: int, createdOn: Date)

  /** One row of `outbox_event`. */
  datatype OutboxEvent = OutboxEvent(txn: TxnNo, merchant: MerchantNo, outTradeNo: string)

  /** What one stage reads from outside the database: the UTC date, the number drawn for a
      write-off transaction, and the account number drawn for a write-off account, if the
      code allocator could supply one. */
  datatype Env = Env(today: Date, writeoffTxn: TxnNo, newAccount: Option<AccountNo>)

  /** Every date difference to the no-expire date saturates: true until the year 9707. */
  predicate ClockInRange(today: Date) {
    today + MAX_DAYS < NO_EXPIRE
  }

  /** The status changes a transaction may make. */
  predicate MayTransit(from: Status, to: Status) {
    match from
    case Init => to == PaySuccess || to == Failed
    case PaySuccess => to == RecvSuccess || to == Failed
    case _ => false
  }

  /** How many stages a transaction still has in front of it. */
  function StagesLeft(s: Status): (n: nat)
    ensures n == 0 <==> forall to: Status :: !MayTransit(s, to)
  {
    assert MayTransit(Init, Failed) && MayTransit(PaySuccess, Failed);
    match s
    case Init => 2
    case PaySuccess => 1
    case _ => 0
  }

  /** The table by where it leads: credited only after debited, debited only from INIT, failed from
      wherever something is left to do, and nothing back to INIT. */
  lemma TransitByTarget(from: Status)
    ensures MayTransit(from, RecvSuccess) <==> from == PaySuccess
    ensures MayTransit(from, PaySuccess) <==> from == Init
    ensures MayTransit(from, Failed) <==> from != RecvSuccess && from != Failed
    ensures !MayTransit(from, Init)
  {
  }

  class TxnStateMachine {
    var status: Status

    constructor (initial: Status)
      ensures status == initial
    {
      status := initial;
    }

    method Transit(next: Status) returns (ok: bool)
      modifies this
      ensures ok == MayTransit(old(status), next)
      ensures status == if ok then next else old(status)
      ensures ok ==> StagesLeft(status) < StagesLeft(old(status))
    {
      var allowed := false;
      match status {
        case Init => allowed := next == PaySuccess || next == Failed;
        case PaySuccess => allowed := next == RecvSuccess || next == Failed;
        case _ => allowed := false;
      }
      if !allowed {
        return false;
      }
      status := next;
      return true;
    }
  }
}
