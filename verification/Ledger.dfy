/** The database as a value, the postings every ledger change is made of, and what each
    transaction stage, submission and maintenance operation does to it. */
module Ledger {
  import opened Domain
  import opened Collections
  import opened Books
  import opened Fefo
  import opened Refunds

  /** The tables. `merchants` maps a merchant to its write-off account number, or to "" when it
      has none yet; `webhooks` holds the merchants whose webhook is enabled and has a URL. */
  datatype Db = Db(
    merchants: map<MerchantNo, AccountNo>,
    webhooks: set<MerchantNo>,
    accounts: map<AccountNo, Account>,
    books: map<AccountNo, seq<Book>>,
    txns: map<TxnNo, Txn>,
    accountLog: seq<AccountChange>,
    bookLog: seq<BookChange>,
    outbox: seq<OutboxEvent>)

  const EMPTY := Db(map[], {}, map[], map[], map[], [], [], [])

  function BooksOf(db: Db, a: AccountNo): seq<Book> {
    if a in db.books then db.books[a] else []
  }

  // ---------- postings ----------

  /** The book log rows of one posting: each part against the balance its book had before it. */
  function PartChanges(t: TxnNo, a: AccountNo, bs: seq<Book>, parts: seq<Part>, day: Date): (r: seq<BookChange>)
    ensures |r| == |parts|
  {
    seq(|parts|, i requires 0 <= i < |parts| =>
      var p := parts[i];
      BookChange(t, a, p.expireAt, p.amount, BalanceAt(bs, p.expireAt), BalanceAt(bs, p.expireAt) + p.amount, day))
  }

  /** Move account `a` by `delta` on behalf of transaction `t`, its books by `parts`. */
  function Post(db: Db, t: TxnNo, a: AccountNo, delta: int, parts: seq<Part>, day: Date): Db
    requires a in db.accounts
  {
    var acc := db.accounts[a];
    db.(accounts := db.accounts[a := acc.(balance := acc.balance + delta)],
        books := db.books[a := ApplyParts(BooksOf(db, a), parts)],
        accountLog := db.accountLog + [AccountChange(t, a, delta, acc.balance, acc.balance + delta)],
        bookLog := db.bookLog + PartChanges(t, a, BooksOf(db, a), parts, day))
  }

  function SetStatus(db: Db, t: TxnNo, s: Status): Db {
    if t in db.txns then db.(txns := db.txns[t := db.txns[t].(status := s)]) else db
  }

  // ---------- accounts and merchants ----------

  function CreateAccount(db: Db, no: AccountNo, a: Account): Result<Db> {
    if no == "" then Err(Infrastructure)
    else if no in db.accounts then Err(AccountNoExists)
    else Ok(db.(accounts := db.accounts[no := a.(balance := 0)],
                books := db.books[no := if a.bookEnabled then [Book(NO_EXPIRE, 0)] else []]))
  }

  function WriteoffAccount(m: MerchantNo): Account {
    Account(m, false, 0, false, true, false, false, 0)
  }

  /** A merchant with its budget, receivable and write-off accounts; a merchant older than the
      write-off feature has "" for the last. */
  function CreateMerchant(db: Db, m: MerchantNo, budget: AccountNo, receivable: AccountNo,
                          writeoff: AccountNo): Result<Db> {
    if m in db.merchants then Err(AccountNoExists)
    else
      match CreateAccount(db, budget, Account(m, true, 0, true, true, true, false, 0))
      case Err(e) => Err(e)
      case Ok(db1) =>
        match CreateAccount(db1, receivable, Account(m, false, 0, true, true, true, false, 0))
        case Err(e) => Err(e)
        case Ok(db2) =>
          if writeoff == "" then Ok(db2.(merchants := db2.merchants[m := ""]))
          else
            match CreateAccount(db2, writeoff, WriteoffAccount(m))
            case Err(e) => Err(e)
            case Ok(db3) => Ok(db3.(merchants := db3.merchants[m := writeoff]))
  }

  function SetCapabilities(db: Db, a: AccountNo, debitOut: bool, creditIn: bool, transfer: bool): Db {
    if a in db.accounts
    then
      var acc := db.accounts[a].(allowDebitOut := debitOut, allowCreditIn := creditIn, allowTransfer := transfer);
      db.(accounts := db.accounts[a := acc])
    else db
  }

  function SetWebhook(db: Db, m: MerchantNo, enabled: bool): Db {
    db.(webhooks := if enabled then db.webhooks + {m} else db.webhooks - {m})
  }

  // ---------- submission ----------

  datatype Request = Request(
    merchant: MerchantNo,
    outTradeNo: string,
    biz: BizType,
    scene: Scene,
    debit: AccountNo,
    credit: AccountNo,
    creditExpireAt: Option<Date>,
    refundOf: Option<TxnNo>,
    amount: int,
    refundable: int,
    status: Option<Status>)

  predicate TradeTaken(txns: map<TxnNo, Txn>, m: MerchantNo, tradeNo: string) {
    exists t | t in txns :: txns[t].merchant == m && txns[t].outTradeNo == tradeNo
  }

  /** INSERT INTO txn, with the table's CHECK and UNIQUE constraints. */
  function InsertTxn(db: Db, t: TxnNo, x: Txn): Result<Db> {
    if x.amount <= 0 || x.refundable < 0 || (x.biz == Transfer) == (x.scene == NoScene) then Err(Infrastructure)
    else if t in db.txns || TradeTaken(db.txns, x.merchant, x.outTradeNo) then Err(DuplicateOutTradeNo)
    else Ok(db.(txns := db.txns[t := x]))
  }

  /** The two accounts exist and belong to the merchant. */
  predicate Resolves(accounts: map<AccountNo, Account>, m: MerchantNo, debit: AccountNo, credit: AccountNo) {
    && debit != "" && credit != ""
    && debit in accounts && credit in accounts
    && accounts[debit].merchant == m && accounts[credit].merchant == m
  }

  function CheckTransferAccounts(db: Db, m: MerchantNo, scene: Scene, debit: AccountNo,
                                 credit: AccountNo): Option<Error> {
    if !Resolves(db.accounts, m, debit, credit) then Some(AccountResolveFailed)
    else if !db.accounts[debit].allowDebitOut then Some(AccountForbidDebit)
    else if !db.accounts[credit].allowCreditIn then Some(AccountForbidCredit)
    else if scene == P2P && !db.accounts[debit].allowTransfer then Some(AccountForbidTransfer)
    else None
  }

  function CheckRefundAccounts(db: Db, m: MerchantNo, debit: AccountNo, credit: AccountNo): Option<Error> {
    if !Resolves(db.accounts, m, debit, credit) then Some(AccountResolveFailed)
    else if !db.accounts[debit].allowDebitOut then Some(AccountForbidDebit)
    else None
  }

  function RowOf(req: Request): Txn {
    var scene := if req.biz == Transfer && req.scene == NoScene then Adjust else req.scene;
    var positive := if req.refundable < 0 then 0 else req.refundable;
    var refundable := if req.biz == Transfer && positive == 0 then req.amount else positive;
    var status := if req.status.None? then Init else req.status.value;
    Txn(req.merchant, req.outTradeNo, req.biz, scene, req.debit, req.credit, req.creditExpireAt, req.amount,
        status, req.refundOf, refundable)
  }

  /** What Submit checks before it inserts: the row to insert, or why not. */
  function Prepare(db: Db, req: Request): Result<Txn> {
    var x := RowOf(req);
    if req.biz == Refund then
      if req.refundOf.None? || req.refundOf.value !in db.txns then Err(TxnNotFound)
      else
        var o := db.txns[req.refundOf.value];
        if o.merchant != req.merchant then Err(TxnNotFound)
        else if o.biz != Transfer || o.status != RecvSuccess || o.scene == ExpireWriteoff then Err(TxnStatusInvalid)
        else if o.refundable < req.amount then Err(RefundAmountExceeded)
        else
          match CheckRefundAccounts(db, req.merchant, o.credit, o.debit)
          case Some(e) => Err(e)
          case None => Ok(x.(debit := o.credit, credit := o.debit))
    else if x.debit != "" || x.credit != "" then
      match CheckTransferAccounts(db, req.merchant, x.scene, x.debit, x.credit)
      case Some(e) => Err(e)
      case None => Ok(x)
    else Ok(x)
  }

  /** Submit when nothing happens between its reads and its insert. */
  function Submit(db: Db, t: TxnNo, req: Request): Result<Db> {
    match Prepare(db, req)
    case Err(e) => Err(e)
    case Ok(x) => InsertTxn(db, t, x)
  }

  // ---------- expiry write-off ----------

  function NoDashes(s: string): string {
    Filter((c: char) => c != '-', s)
  }

  /** The part of a transaction number that its write-off trade number keeps. */
  function ShortNo(t: TxnNo): string {
    var s := NoDashes(t);
    if |s| > 8 then s[..8] else s
  }

  function WriteoffTradeNo(a: AccountNo, t: TxnNo): string {
    "sys_expire_" + a + "_" + ShortNo(t)
  }

  /** The merchant's write-off account, created on first use. */
  function EnsureWriteoff(db: Db, m: MerchantNo, newNo: Option<AccountNo>): Result<(Db, AccountNo)> {
    if m !in db.merchants then Err(InvalidMerchantNo)
    else if db.merchants[m] == "" then
      match newNo
      case None => Err(CodeAllocatorUnavailable)
      case Some(no) =>
        match CreateAccount(db, no, WriteoffAccount(m))
        case Err(e) => Err(e)
        case Ok(db1) => Ok((db1.(merchants := db1.merchants[m := no]), no))
    else if db.merchants[m] !in db.accounts then Err(AccountResolveFailed)
    else Ok((db, db.merchants[m]))
  }

  function WriteoffRow(db: Db, a: AccountNo, w: AccountNo, t: TxnNo, total: int): Txn
    requires a in db.accounts
  {
    Txn(db.accounts[a].merchant, WriteoffTradeNo(a, t), Transfer, ExpireWriteoff, a, w, None, total,
        RecvSuccess, None, 0)
  }

  /** The two postings of a write-off. */
  function WriteOffPosts(db: Db, a: AccountNo, w: AccountNo, t: TxnNo, today: Date): Db
    requires a in db.accounts && w in db.accounts
  {
    var total := Total(Expired(BooksOf(db, a), today));
    var db1 := Post(db, t, a, -total, SweepParts(BooksOf(db, a), today), today);
    Post(db1, t, w, total, PlainParts(db1.accounts[w], total, None), today)
  }

  /** Move everything expired from `a` to the write-off account `w` as transaction `t`. */
  function WriteOff(db: Db, a: AccountNo, w: AccountNo, t: TxnNo, today: Date): Db
    requires a in db.accounts && w in db.accounts
  {
    var row := WriteoffRow(db, a, w, t, Total(Expired(BooksOf(db, a), today)));
    WriteOffPosts(db, a, w, t, today).(txns := db.txns[t := row])
  }

  function Sweep(db: Db, a: AccountNo, env: Env): Result<Db>
    requires a in db.accounts
  {
    var acc := db.accounts[a];
    if !acc.bookEnabled || Expired(BooksOf(db, a), env.today) == [] then Ok(db)
    else
      match EnsureWriteoff(db, acc.merchant, env.newAccount)
      case Err(e) => Err(e)
      case Ok((db1, w)) =>
        if env.writeoffTxn in db1.txns || TradeTaken(db1.txns, acc.merchant, WriteoffTradeNo(a, env.writeoffTxn))
        then Err(Infrastructure)
        else Ok(WriteOff(db1, a, w, env.writeoffTxn, env.today))
  }

  // ---------- debit ----------

  /** validateDebitBalanceOnly, on any balance. */
  predicate CanDebit(acc: Account, balance: int, amount: int) {
    && amount > 0
    && (if !acc.allowOverdraft then balance >= amount
        else acc.overdraftLimit == 0 || balance + acc.overdraftLimit >= amount)
  }

  function DebitParts(db: Db, a: AccountNo, amount: int, today: Date): seq<Part>
    requires a in db.accounts && amount > 0
  {
    if db.accounts[a].bookEnabled then Draw(Available(BooksOf(db, a), today), amount) else []
  }

  /** The debit of an account that has been swept. */
  function DebitSwept(db: Db, t: TxnNo, a: AccountNo, amount: int, today: Date): Result<Db>
    requires amount > 0
  {
    if a !in db.accounts then Err(AccountResolveFailed)
    else if !CanDebit(db.accounts[a], db.accounts[a].balance, amount) then Err(InsufficientBalance)
    else if db.accounts[a].bookEnabled && Missing(Available(BooksOf(db, a), today), amount) > 0
    then Err(InsufficientBalance)
    else Ok(Post(db, t, a, -amount, DebitParts(db, a, amount, today), today))
  }

  function Debit(db: Db, t: TxnNo, a: AccountNo, amount: int, env: Env): Result<Db> {
    if a == "" || amount <= 0 || a !in db.accounts then Err(AccountResolveFailed)
    else
      match Sweep(db, a, env)
      case Err(e) => Err(e)
      case Ok(db1) => DebitSwept(db1, t, a, amount, env.today)
  }

  // ---------- credit ----------

  /** An ordinary credit goes to one book: the requested expiry date, or never. */
  function PlainParts(acc: Account, amount: int, expireAt: Option<Date>): seq<Part> {
    if acc.bookEnabled then [Part(if expireAt.Some? then expireAt.value else NO_EXPIRE, amount)] else []
  }

  predicate DistinctDates(parts: seq<Part>) {
    forall i, j | 0 <= i < j < |parts| :: parts[i].expireAt != parts[j].expireAt
  }

  /** applyBookCreditPartsTx: a part list that is empty, not positive, does not add up, or names
      a date twice is refused. */
  function CreditByParts(db: Db, t: TxnNo, a: AccountNo, amount: int, parts: seq<Part>, day: Date,
                         traceErr: Error): Result<Db>
    requires a in db.accounts
  {
    if amount <= 0 || a == "" then Err(AccountResolveFailed)
    else if !db.accounts[a].bookEnabled || parts == [] then Err(traceErr)
    else if (exists p | p in parts :: p.amount <= 0) || PartsTotal(parts) != amount || !DistinctDates(parts)
    then Err(traceErr)
    else Ok(Post(db, t, a, amount, parts, day))
  }

  function IsTrace(t: TxnNo, a: AccountNo): BookChange -> bool {
    (c: BookChange) => c.txn == t && c.account == a && c.delta < 0
  }

  /** ListOriginDebitBookChanges: what transaction `t` took from which books of `a`, in order. */
  function Trace(log: seq<BookChange>, t: TxnNo, a: AccountNo): seq<BookChange> {
    Filter(IsTrace(t, a), log)
  }

  function TraceParts(trace: seq<BookChange>): seq<Part> {
    seq(|trace|, i requires 0 <= i < |trace| => Part(trace[i].expireAt, -trace[i].delta))
  }

  function TransferCredit(db: Db, t: TxnNo, x: Txn, today: Date): Result<Db> {
    if x.credit == "" || x.amount <= 0 || x.credit !in db.accounts then Err(AccountResolveFailed)
    else
      var acc := db.accounts[x.credit];
      if x.scene == P2P && acc.bookEnabled && x.debit == "" then Err(AccountResolveFailed)
      else
        var trace := Trace(db.bookLog, t, x.debit);
        if x.scene == P2P && acc.bookEnabled && trace != [] then
          if PartsTotal(TraceParts(trace)) != x.amount then Err(AccountResolveFailed)
          else CreditByParts(db, t, x.credit, x.amount, TraceParts(trace), today, AccountResolveFailed)
        else Ok(Post(db, t, x.credit, x.amount, PlainParts(acc, x.amount, x.creditExpireAt), today))
  }

  predicate IsRefundOf(x: Txn, m: MerchantNo, o: TxnNo) {
    x.merchant == m && x.refundOf == Some(o) && x.biz == Refund
  }

  function DebitedAmount(txns: map<TxnNo, Txn>, m: MerchantNo, o: TxnNo, a: AccountNo): AccountChange -> int {
    (e: AccountChange) =>
      if e.txn in txns && IsRefundOf(txns[e.txn], m, o) && e.account == a && e.delta < 0 then txns[e.txn].amount else 0
  }

  function DebitedAmountOf(txns: map<TxnNo, Txn>, m: MerchantNo, o: TxnNo, a: AccountNo,
                           t: TxnNo): AccountChange -> int {
    (e: AccountChange) => if e.txn == t then DebitedAmount(txns, m, o, a)(e) else 0
  }

  /** GetRefundDebitStatsByOrigin: (total_debited, current_debited). */
  function RefundStats(db: Db, t: TxnNo, m: MerchantNo, o: TxnNo, a: AccountNo): (int, int) {
    (SumBy(DebitedAmount(db.txns, m, o, a), db.accountLog), SumBy(DebitedAmountOf(db.txns, m, o, a, t), db.accountLog))
  }

  function RefundCreditParts(db: Db, t: TxnNo, x: Txn, o: TxnNo, today: Date): Result<seq<Part>> {
    if x.amount <= 0 then Err(AccountResolveFailed)
    else if o !in db.txns || db.txns[o].merchant != x.merchant then Err(TxnNotFound)
    else
      var origin := db.txns[o];
      if origin.debit == "" || origin.credit == "" then Err(AccountResolveFailed)
      else
        var trace := Trace(db.bookLog, o, origin.debit);
        var (total, current) := RefundStats(db, t, x.merchant, o, origin.credit);
        if trace == [] || current <= 0 || total - current < 0 then Err(RefundOriginBookTraceMissing)
        else if SumBy(Identity, Uses(trace, total - current, x.amount)) != x.amount
        then Err(RefundOriginBookTraceMissing)
        else Ok(RefundParts(trace, total - current, x.amount, today))
  }

  function RefundCredit(db: Db, t: TxnNo, x: Txn, o: TxnNo, today: Date): Result<Db> {
    if x.credit == "" || x.amount <= 0 || x.credit !in db.accounts then Err(AccountResolveFailed)
    else if !db.accounts[x.credit].bookEnabled then Ok(Post(db, t, x.credit, x.amount, [], today))
    else
      match RefundCreditParts(db, t, x, o, today)
      case Err(e) => Err(e)
      case Ok(parts) => CreditByParts(db, t, x.credit, x.amount, parts, today, RefundOriginBookTraceMissing)
  }

  // ---------- stages ----------

  /** DecreaseOriginTxnRefundableIfValid's WHERE clause. */
  predicate CanTakeBack(txns: map<TxnNo, Txn>, o: TxnNo, m: MerchantNo, amount: int) {
    && o in txns
    && txns[o].merchant == m && txns[o].biz == Transfer
    && txns[o].status == RecvSuccess && txns[o].refundable >= amount
  }

  function TakeBack(db: Db, o: TxnNo, amount: int): Db {
    if o in db.txns then db.(txns := db.txns[o := db.txns[o].(refundable := db.txns[o].refundable - amount)]) else db
  }

  function ClassifyMiss(db: Db, o: TxnNo, m: MerchantNo): Error {
    if o !in db.txns || (m != "" && db.txns[o].merchant != m) then TxnNotFound
    else if db.txns[o].biz != Transfer || db.txns[o].status != RecvSuccess then TxnStatusInvalid
    else RefundAmountExceeded
  }

  function StageInit(db: Db, t: TxnNo, env: Env): Result<Db>
    requires t in db.txns
  {
    var x := db.txns[t];
    if x.biz == Refund && x.refundOf.None? then Err(TxnStatusInvalid)
    else if x.biz == Refund && !CanTakeBack(db.txns, x.refundOf.value, x.merchant, x.amount)
    then Err(ClassifyMiss(db, x.refundOf.value, x.merchant))
    else if x.debit == "" || (x.biz == Refund && x.credit == "") then Err(AccountResolveFailed)
    else
      match Debit(db, t, x.debit, x.amount, env)
      case Err(e) => Err(e)
      case Ok(db1) =>
        var db2 := if x.biz == Refund then TakeBack(db1, x.refundOf.value, x.amount) else db1;
        Ok(SetStatus(db2, t, PaySuccess))
  }

  /** InsertOutboxEvent: only for an enabled webhook, and never a second event for a transaction. */
  function Emit(db: Db, t: TxnNo): Db {
    if t in db.txns && db.txns[t].merchant in db.webhooks && forall e | e in db.outbox :: e.txn != t
    then db.(outbox := db.outbox + [OutboxEvent(t, db.txns[t].merchant, db.txns[t].outTradeNo)])
    else db
  }

  function StagePay(db: Db, t: TxnNo, env: Env): Result<Db>
    requires t in db.txns
  {
    var x := db.txns[t];
    if x.credit == "" then Err(AccountResolveFailed)
    else if x.biz == Refund && x.refundOf.None? then Err(TxnStatusInvalid)
    else
      match (if x.biz == Refund
             then RefundCredit(db, t, x, x.refundOf.value, env.today)
             else TransferCredit(db, t, x, env.today))
      case Err(e) => Err(e)
      case Ok(db1) => Ok(Emit(SetStatus(db1, t, RecvSuccess), t))
  }

  datatype Outcome =
    | Applied(db: Db)
    | Skipped(current: Status)
    | Rejected(error: Error)

  /** ApplyTxnStage: one database transaction that commits wholly or changes nothing. */
  function Stage(db: Db, t: TxnNo, expected: Status, env: Env): Outcome {
    if t !in db.txns then Rejected(TxnNotFound)
    else if db.txns[t].status != expected then Skipped(db.txns[t].status)
    else
      match (match expected
             case Init => StageInit(db, t, env)
             case PaySuccess => StagePay(db, t, env)
             case _ => Err(TxnStatusInvalid))
      case Err(e) => Rejected(e)
      case Ok(db1) => Applied(db1)
  }

  /** TransitionTransferTxnStatus: UPDATE ... WHERE status = from. */
  function Transition(db: Db, t: TxnNo, from: Status, to: Status): Db {
    if t in db.txns && db.txns[t].status == from then SetStatus(db, t, to) else db
  }
}
