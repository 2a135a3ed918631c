/** What holds of the ledger in every reachable state. */
module Invariants {
  import opened Domain
  import opened Collections
  import opened Books
  import opened Fefo
  import opened Refunds
  import opened Ledger

  // ---------- accounts and their books ----------

  /** The account may not go below -Limit(acc). */
  predicate Limited(acc: Account) {
    !acc.allowOverdraft || acc.overdraftLimit > 0
  }

  function Limit(acc: Account): int {
    if acc.allowOverdraft then acc.overdraftLimit else 0
  }

  /** Book agreement and the overdraft floor: a book account's balance is the sum of its books,
      at most one per date, one of them without expiry; dated books hold no debt, and the
      no-expire book alone stays above the floor. */
  ghost predicate AccountOk(acc: Account, bs: seq<Book>) {
    && Sorted(bs)
    && (if acc.bookEnabled then
          && Has(bs, NO_EXPIRE) && acc.balance == Total(bs) && DatedNonNegative(bs)
          && (Limited(acc) ==> BalanceAt(bs, NO_EXPIRE) >= -Limit(acc))
        else
          bs == [] && (Limited(acc) ==> acc.balance >= -Limit(acc)))
  }

  ghost predicate AccountsOk(accounts: map<AccountNo, Account>, books: map<AccountNo, seq<Book>>) {
    && books.Keys == accounts.Keys && "" !in accounts
    && forall a {:trigger AccountOk(accounts[a], books[a])} | a in accounts :: AccountOk(accounts[a], books[a])
  }

  predicate WriteoffOk(accounts: map<AccountNo, Account>, m: MerchantNo, w: AccountNo) {
    w != "" ==> w in accounts && accounts[w].merchant == m && !accounts[w].bookEnabled
  }

  ghost predicate WriteoffsOk(merchants: map<MerchantNo, AccountNo>, accounts: map<AccountNo, Account>) {
    forall m {:trigger WriteoffOk(accounts, m, merchants[m])} | m in merchants :: WriteoffOk(accounts, m, merchants[m])
  }

  // ---------- logs ----------

  /** The balance the log gives account `a`: that after its last entry, 0 without one. */
  ghost function LastAfter(log: seq<AccountChange>, a: AccountNo): int {
    if log == [] then 0
    else if log[|log| - 1].account == a then log[|log| - 1].after
    else LastAfter(log[..|log| - 1], a)
  }

  ghost function LastBookAfter(log: seq<BookChange>, a: AccountNo, d: Date): int {
    if log == [] then 0
    else
      var c := log[|log| - 1];
      if c.account == a && c.expireAt == d then c.after else LastBookAfter(log[..|log| - 1], a, d)
  }

  /** Every entry starts where the account's previous entry ended and moves it by its delta. */
  ghost predicate Chained(log: seq<AccountChange>) {
    log == [] ||
    var n := |log| - 1;
    && Chained(log[..n])
    && log[n].before == LastAfter(log[..n], log[n].account)
    && log[n].after == log[n].before + log[n].delta
  }

  ghost predicate BooksChained(log: seq<BookChange>) {
    log == [] ||
    var n := |log| - 1;
    && BooksChained(log[..n])
    && log[n].before == LastBookAfter(log[..n], log[n].account, log[n].expireAt)
    && log[n].after == log[n].before + log[n].delta
  }

  function BalanceOf(accounts: map<AccountNo, Account>, a: AccountNo): int {
    if a in accounts then accounts[a].balance else 0
  }

  function BookBalance(books: map<AccountNo, seq<Book>>, a: AccountNo, d: Date): int {
    if a in books then BalanceAt(books[a], d) else 0
  }

  ghost predicate LogEnds(accounts: map<AccountNo, Account>, log: seq<AccountChange>, a: AccountNo) {
    LastAfter(log, a) == BalanceOf(accounts, a)
  }

  /** The account log is a chain per account that ends at the account's balance. */
  ghost predicate AccountLogOk(accounts: map<AccountNo, Account>, log: seq<AccountChange>) {
    Chained(log) && forall a: AccountNo {:trigger LogEnds(accounts, log, a)} :: LogEnds(accounts, log, a)
  }

  ghost predicate BookLogEnds(books: map<AccountNo, seq<Book>>, log: seq<BookChange>, a: AccountNo, d: Date) {
    LastBookAfter(log, a, d) == BookBalance(books, a, d)
  }

  /** The book log is a chain per book that ends at the book's balance. */
  ghost predicate BookLogOk(books: map<AccountNo, seq<Book>>, log: seq<BookChange>) {
    && BooksChained(log)
    && forall a: AccountNo, d: Date {:trigger BookLogEnds(books, log, a, d)} :: BookLogEnds(books, log, a, d)
  }

  function BookDelta(t: TxnNo, a: AccountNo): BookChange -> int {
    (c: BookChange) => if c.txn == t && c.account == a then c.delta else 0
  }

  function AccountDelta(t: TxnNo, a: AccountNo): AccountChange -> int {
    (e: AccountChange) => if e.txn == t && e.account == a then e.delta else 0
  }

  predicate IsBook(accounts: map<AccountNo, Account>, a: AccountNo) {
    a in accounts && accounts[a].bookEnabled
  }

  predicate Known(accounts: map<AccountNo, Account>, a: AccountNo) {
    a in accounts
  }

  ghost predicate DeltasAgree(log: seq<AccountChange>, bookLog: seq<BookChange>, t: TxnNo, a: AccountNo) {
    SumBy(BookDelta(t, a), bookLog) == SumBy(AccountDelta(t, a), log)
  }

  /** Per transaction and book account, the book deltas add up to the account deltas; other
      accounts have no book entries, and only existing accounts have entries at all. */
  ghost predicate DeltasOk(accounts: map<AccountNo, Account>, log: seq<AccountChange>, bookLog: seq<BookChange>) {
    && (forall t: TxnNo, a: AccountNo {:trigger DeltasAgree(log, bookLog, t, a)} | IsBook(accounts, a) ::
          DeltasAgree(log, bookLog, t, a))
    && (forall c {:trigger IsBook(accounts, c.account)} | c in bookLog :: IsBook(accounts, c.account))
    && (forall e {:trigger Known(accounts, e.account)} | e in log :: Known(accounts, e.account))
  }

  // ---------- transactions ----------

  predicate Debited(s: Status) {
    s == PaySuccess || s == RecvSuccess
  }

  ghost predicate RefundLink(x: Txn, o: Txn) {
    && o.biz == Transfer && o.status == RecvSuccess && o.scene != ExpireWriteoff
    && o.merchant == x.merchant && o.credit == x.debit && o.debit == x.credit
    && x.debit != "" && x.credit != ""
  }

  ghost predicate TxnOk(accounts: map<AccountNo, Account>, txns: map<TxnNo, Txn>, x: Txn) {
    && x.amount > 0 && x.refundable >= 0
    && (Resolves(accounts, x.merchant, x.debit, x.credit) || (x.debit == "" && x.credit == "" && !Debited(x.status)))
    && (x.biz == Refund ==> x.refundOf.Some? && x.refundOf.value in txns && RefundLink(x, txns[x.refundOf.value]))
  }

  ghost predicate TxnsOk(accounts: map<AccountNo, Account>, txns: map<TxnNo, Txn>) {
    forall t {:trigger TxnOk(accounts, txns, txns[t])} | t in txns :: TxnOk(accounts, txns, txns[t])
  }

  predicate SameTrade(x: Txn, y: Txn) {
    x.merchant == y.merchant && x.outTradeNo == y.outTradeNo
  }

  ghost predicate TradesUnique(txns: map<TxnNo, Txn>) {
    forall t, u {:trigger SameTrade(txns[t], txns[u])} | t in txns && u in txns ::
      SameTrade(txns[t], txns[u]) ==> t == u
  }

  /** The account movements recorded for transaction `t`, in order. */
  ghost function Moves(log: seq<AccountChange>, t: TxnNo): seq<(AccountNo, int)> {
    if log == [] then []
    else
      var e := log[|log| - 1];
      Moves(log[..|log| - 1], t) + (if e.txn == t then [(e.account, e.delta)] else [])
  }

  /** The movements a transaction's status allows it to have made. */
  ghost function Expected(txns: map<TxnNo, Txn>, t: TxnNo): seq<(AccountNo, int)> {
    if t !in txns then []
    else
      var x := txns[t];
      match x.status
      case PaySuccess => [(x.debit, -x.amount)]
      case RecvSuccess => [(x.debit, -x.amount), (x.credit, x.amount)]
      case _ => []
  }

  ghost predicate MovesOk(txns: map<TxnNo, Txn>, log: seq<AccountChange>, t: TxnNo) {
    Moves(log, t) == Expected(txns, t)
  }

  /** Exactly once: each transaction has moved exactly the accounts its status says. */
  ghost predicate JournalOk(txns: map<TxnNo, Txn>, log: seq<AccountChange>) {
    && (forall t: TxnNo {:trigger MovesOk(txns, log, t)} :: MovesOk(txns, log, t))
    && (forall e | e in log :: e.txn in txns)
  }

  /** No book entry belongs to a transaction that has not got that far. */
  predicate BookEntryOk(txns: map<TxnNo, Txn>, c: BookChange) {
    && c.txn in txns && Debited(txns[c.txn].status)
    && (c.delta >= 0 ==> txns[c.txn].status == RecvSuccess)
  }

  ghost predicate BookJournalOk(txns: map<TxnNo, Txn>, bookLog: seq<BookChange>) {
    forall c {:trigger BookEntryOk(txns, c)} | c in bookLog :: BookEntryOk(txns, c)
  }

  predicate EventOk(txns: map<TxnNo, Txn>, e: OutboxEvent) {
    && e.txn in txns && txns[e.txn].status == RecvSuccess
    && e.merchant == txns[e.txn].merchant && e.outTradeNo == txns[e.txn].outTradeNo
  }

  ghost predicate OutboxOk(txns: map<TxnNo, Txn>, outbox: seq<OutboxEvent>) {
    && (forall e {:trigger EventOk(txns, e)} | e in outbox :: EventOk(txns, e))
    && (forall i, j | 0 <= i < j < |outbox| :: outbox[i].txn != outbox[j].txn)
  }

  /** Each debit of a book account left a trace that accounts for the whole amount. */
  ghost predicate TracesOk(accounts: map<AccountNo, Account>, txns: map<TxnNo, Txn>, bookLog: seq<BookChange>) {
    forall t {:trigger Trace(bookLog, t, txns[t].debit)}
      | t in txns && Debited(txns[t].status) && IsBook(accounts, txns[t].debit) ::
      GoodTrace(Trace(bookLog, t, txns[t].debit), txns[t].amount)
  }

  function CreditOn(t: TxnNo, a: AccountNo, d: Date): BookChange -> int {
    (c: BookChange) => if c.txn == t && c.account == a && c.expireAt == d && c.delta > 0 then c.delta else 0
  }

  function DebitOn(t: TxnNo, a: AccountNo, d: Date): BookChange -> int {
    (c: BookChange) => if c.txn == t && c.account == a && c.expireAt == d && c.delta < 0 then -c.delta else 0
  }

  predicate BookToBook(accounts: map<AccountNo, Account>, x: Txn) {
    x.biz == Transfer && x.scene == P2P && IsBook(accounts, x.debit) && IsBook(accounts, x.credit)
  }

  /** For every expiry date transaction `t` credited to `credit` what it debited from `debit`. */
  ghost predicate ProfileKept(bookLog: seq<BookChange>, t: TxnNo, debit: AccountNo, credit: AccountNo) {
    forall d: Date :: SumBy(CreditOn(t, credit, d), bookLog) == SumBy(DebitOn(t, debit, d), bookLog)
  }

  /** A completed book-to-book P2P transfer kept the expiry profile. */
  ghost predicate ProfilesOk(accounts: map<AccountNo, Account>, txns: map<TxnNo, Txn>, bookLog: seq<BookChange>) {
    forall t {:trigger ProfileKept(bookLog, t, txns[t].debit, txns[t].credit)}
      | t in txns && txns[t].status == RecvSuccess && BookToBook(accounts, txns[t]) ::
      ProfileKept(bookLog, t, txns[t].debit, txns[t].credit)
  }

  // ---------- refunds ----------

  function RefundedBy(o: TxnNo): Txn -> int {
    (x: Txn) => if x.biz == Refund && x.refundOf == Some(o) && Debited(x.status) then x.amount else 0
  }

  /** What the debited refunds of `o` add up to. */
  ghost function Refunded(txns: map<TxnNo, Txn>, o: TxnNo): int {
    SumMap(RefundedBy(o), txns)
  }

  /** The amount of a transaction that refunds may draw on; expiry write-offs have none. */
  function Quota(x: Txn): int {
    if x.scene == ExpireWriteoff then 0 else x.amount
  }

  ghost predicate QuotaKept(txns: map<TxnNo, Txn>, o: TxnNo)
    requires o in txns
  {
    txns[o].refundable + Refunded(txns, o) == Quota(txns[o])
  }

  /** What is refundable and what has been refunded add up to the origin's amount. */
  ghost predicate QuotaOk(txns: map<TxnNo, Txn>) {
    forall o {:trigger QuotaKept(txns, o)} | o in txns && txns[o].biz == Transfer :: QuotaKept(txns, o)
  }

  ghost predicate StatsAgree(txns: map<TxnNo, Txn>, log: seq<AccountChange>, o: TxnNo)
    requires o in txns
  {
    SumBy(DebitedAmount(txns, txns[o].merchant, o, txns[o].credit), log) == Refunded(txns, o)
  }

  /** The statistics query over the log agrees with the transaction table. */
  ghost predicate StatsOk(txns: map<TxnNo, Txn>, log: seq<AccountChange>) {
    forall o {:trigger StatsAgree(txns, log, o)} | o in txns && txns[o].biz == Transfer :: StatsAgree(txns, log, o)
  }

  // ---------- money ----------

  function BalanceIn(m: MerchantNo): Account -> int {
    (a: Account) => if a.merchant == m then a.balance else 0
  }

  function InFlight(m: MerchantNo): Txn -> int {
    (x: Txn) => if x.merchant == m && x.status == PaySuccess then x.amount else 0
  }

  /** No money is made or lost: the merchant's balances and the money between the two stages of
      its transactions add up to nothing. */
  ghost predicate Balanced(accounts: map<AccountNo, Account>, txns: map<TxnNo, Txn>, m: MerchantNo) {
    SumMap(BalanceIn(m), accounts) + SumMap(InFlight(m), txns) == 0
  }

  ghost predicate ZeroSum(accounts: map<AccountNo, Account>, txns: map<TxnNo, Txn>) {
    forall m: MerchantNo {:trigger Balanced(accounts, txns, m)} :: Balanced(accounts, txns, m)
  }

  /** Accounts, books and logs. */
  ghost predicate MoneyInv(merchants: map<MerchantNo, AccountNo>, accounts: map<AccountNo, Account>,
                           books: map<AccountNo, seq<Book>>,
                           log: seq<AccountChange>, bookLog: seq<BookChange>)
  {
    && AccountsOk(accounts, books)
    && WriteoffsOk(merchants, accounts)
    && AccountLogOk(accounts, log)
    && BookLogOk(books, bookLog)
    && DeltasOk(accounts, log, bookLog)
  }

  /** Transactions and how they relate to the money. */
  ghost predicate TxnInv(accounts: map<AccountNo, Account>, txns: map<TxnNo, Txn>,
                         log: seq<AccountChange>, bookLog: seq<BookChange>, outbox: seq<OutboxEvent>)
  {
    && TxnsOk(accounts, txns)
    && TradesUnique(txns)
    && JournalOk(txns, log)
    && BookJournalOk(txns, bookLog)
    && OutboxOk(txns, outbox)
    && TracesOk(accounts, txns, bookLog)
    && ProfilesOk(accounts, txns, bookLog)
    && QuotaOk(txns)
    && StatsOk(txns, log)
    && ZeroSum(accounts, txns)
  }

  ghost predicate MoneyOk(db: Db) {
    MoneyInv(db.merchants, db.accounts, db.books, db.accountLog, db.bookLog)
  }

  ghost predicate RecordsOk(db: Db) {
    TxnInv(db.accounts, db.txns, db.accountLog, db.bookLog, db.outbox)
  }

  lemma {:induction false} RecordsFrom(db: Db, accounts: map<AccountNo, Account>, txns: map<TxnNo, Txn>,
                                       log: seq<AccountChange>, bookLog: seq<BookChange>, outbox: seq<OutboxEvent>)
    requires TxnInv(accounts, txns, log, bookLog, outbox)
    requires db.accounts == accounts && db.txns == txns && db.accountLog == log && db.bookLog == bookLog
    requires db.outbox == outbox
    ensures RecordsOk(db)
  {
  }

  lemma {:induction false} MoneyFrom(db: Db, merchants: map<MerchantNo, AccountNo>, accounts: map<AccountNo, Account>,
                                     books: map<AccountNo, seq<Book>>, log: seq<AccountChange>,
                                     bookLog: seq<BookChange>)
    requires MoneyInv(merchants, accounts, books, log, bookLog)
    requires db.merchants == merchants && db.accounts == accounts && db.books == books
    requires db.accountLog == log && db.bookLog == bookLog
    ensures MoneyOk(db)
  {
  }

  ghost predicate Inv(db: Db) {
    MoneyOk(db) && RecordsOk(db)
  }

  lemma EmptyInv()
    ensures Inv(EMPTY)
  {
    assert forall t: TxnNo, a: AccountNo :: SumBy(BookDelta(t, a), []) == 0 == SumBy(AccountDelta(t, a), []);
  }

  // ---------- what the invariant says to a reader ----------

  /** The floor is a floor for the balance itself, whatever expires. */
  lemma {:induction false} FloorHolds(acc: Account, bs: seq<Book>)
    requires AccountOk(acc, bs) && Limited(acc)
    ensures acc.balance >= -Limit(acc)
  {
    if acc.bookEnabled {
      DatedMembers(bs);
      BooksAboveNoExpire(bs);
    }
  }

  lemma {:induction false} BooksAboveNoExpire(bs: seq<Book>)
    requires Sorted(bs)
    requires forall b | b in bs :: b.expireAt != NO_EXPIRE ==> b.balance >= 0
    ensures Total(bs) >= BalanceAt(bs, NO_EXPIRE)
  {
    if bs == [] {
    } else {
      if bs[0].expireAt == NO_EXPIRE {
        assert |bs| > 1 ==> !Before(bs[0].expireAt, bs[1].expireAt);
        assert bs == [bs[0]];
        SumOne((b: Book) => b.balance, bs[0]);
      } else {
        assert bs[0] in bs;
        BooksAboveNoExpire(bs[1..]);
      }
    }
  }

  function DeltaOn(a: AccountNo): AccountChange -> int {
    (e: AccountChange) => if e.account == a then e.delta else 0
  }

  function BookDeltaOn(a: AccountNo, d: Date): BookChange -> int {
    (c: BookChange) => if c.account == a && c.expireAt == d then c.delta else 0
  }

  /** Replaying an account's deltas from zero gives its balance. */
  lemma {:induction false} Replay(log: seq<AccountChange>, a: AccountNo)
    requires Chained(log)
    ensures SumBy(DeltaOn(a), log) == LastAfter(log, a)
  {
    if log == [] {
    } else {
      var n := |log| - 1;
      Replay(log[..n], a);
      SumSnoc(DeltaOn(a), log[..n], log[n]);
      assert log == log[..n] + [log[n]];
    }
  }

  lemma {:induction false} ReplayBook(log: seq<BookChange>, a: AccountNo, d: Date)
    requires BooksChained(log)
    ensures SumBy(BookDeltaOn(a, d), log) == LastBookAfter(log, a, d)
  {
    if log == [] {
    } else {
      var n := |log| - 1;
      ReplayBook(log[..n], a, d);
      SumSnoc(BookDeltaOn(a, d), log[..n], log[n]);
      assert log == log[..n] + [log[n]];
    }
  }
}
