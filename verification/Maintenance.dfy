/** Opening accounts and merchants, submitting transactions, failing them, and writing off
    expired books keep the invariant. */
module Maintenance {
  import opened Domain
  import opened Collections
  import opened Books
  import opened Fefo
  import opened Refunds
  import opened Ledger
  import opened Invariants
  import opened Postings
  import opened Frames
  import opened Effects

  // ---------- a new row in the transaction table ----------

  lemma {:induction false} InsertQuota(accounts: map<AccountNo, Account>, txns: map<TxnNo, Txn>, t: TxnNo, x: Txn)
    requires TxnsOk(accounts, txns) && QuotaOk(txns) && t !in txns && x.status == Init
    requires x.biz == Transfer ==> x.refundable == Quota(x)
    requires x.biz == Refund ==> x.refundOf != Some(t)
    ensures QuotaOk(txns[t := x])
  {
    var txns1 := txns[t := x];
    forall o | o in txns1 && txns1[o].biz == Transfer
      ensures QuotaKept(txns1, o)
    {
      if o == t {
        NobodyRefunds(accounts, txns, t);
        RefundedNothing(txns1, t);
      } else {
        assert QuotaKept(txns, o);
        SumMapUpdate(RefundedBy(o), txns, t, x);
      }
    }
  }

  lemma {:induction false} NobodyRefunds(accounts: map<AccountNo, Account>, txns: map<TxnNo, Txn>, t: TxnNo)
    requires TxnsOk(accounts, txns) && t !in txns
    ensures forall u | u in txns && txns[u].biz == Refund :: txns[u].refundOf != Some(t)
  {
    forall u | u in txns && txns[u].biz == Refund
      ensures txns[u].refundOf != Some(t)
    {
      assert TxnOk(accounts, txns, txns[u]);
    }
  }

  lemma {:induction false} InsertStats(accounts: map<AccountNo, Account>, txns: map<TxnNo, Txn>, t: TxnNo, x: Txn,
                                       log: seq<AccountChange>)
    requires TxnsOk(accounts, txns) && StatsOk(txns, log) && t !in txns && x.status == Init
    requires x.biz == Refund ==> x.refundOf != Some(t)
    requires forall e | e in log :: e.txn in txns
    ensures StatsOk(txns[t := x], log)
  {
    var txns1 := txns[t := x];
    forall o | o in txns1 && txns1[o].biz == Transfer
      ensures StatsAgree(txns1, log, o)
    {
      var m, a := txns1[o].merchant, txns1[o].credit;
      if o == t {
        NobodyRefunds(accounts, txns, t);
        RefundedNothing(txns1, t);
        SumZero(DebitedAmount(txns1, m, t, a), log);
      } else {
        assert StatsAgree(txns, log, o);
        SumMapUpdate(RefundedBy(o), txns, t, x);
        SumSame(DebitedAmount(txns1, m, o, a), DebitedAmount(txns, m, o, a), log);
      }
    }
  }

  lemma {:induction false} InsertZeroSum(accounts: map<AccountNo, Account>, txns: map<TxnNo, Txn>, t: TxnNo, x: Txn)
    requires ZeroSum(accounts, txns) && t !in txns && x.status == Init
    ensures ZeroSum(accounts, txns[t := x])
  {
    var txns1 := txns[t := x];
    forall m: MerchantNo
      ensures Balanced(accounts, txns1, m)
    {
      assert Balanced(accounts, txns, m);
      SumMapUpdate(InFlight(m), txns, t, x);
    }
  }

  ghost predicate NewRowOk(accounts: map<AccountNo, Account>, txns: map<TxnNo, Txn>, t: TxnNo, x: Txn) {
    && t !in txns && !TradeTaken(txns, x.merchant, x.outTradeNo)
    && x.status == Init && TxnOk(accounts, txns, x)
    && (x.biz == Transfer ==> x.refundable == Quota(x))
  }

  lemma {:induction false} InsertKeepsTxnInv(accounts: map<AccountNo, Account>, txns: map<TxnNo, Txn>, t: TxnNo, x: Txn,
                                             log: seq<AccountChange>, bookLog: seq<BookChange>,
                                             outbox: seq<OutboxEvent>)
    requires TxnInv(accounts, txns, log, bookLog, outbox) && NewRowOk(accounts, txns, t, x)
    ensures TxnInv(accounts, txns[t := x], log, bookLog, outbox)
  {
    var txns1 := txns[t := x];
    assert Grows(txns, txns1);
    forall u | u in txns
      ensures txns1[u].refundable >= 0 && (Debited(txns1[u].status) ==> txns[u].debit != "")
    {
      assert TxnOk(accounts, txns, txns[u]);
    }
    TxnsFrame(accounts, accounts, txns, txns1);
    TradesInsert(txns, t, x);
    JournalFrame(txns, txns1, log);
    assert bookLog + [] == bookLog;
    BookJournalFrame(txns, txns1, bookLog, []);
    OutboxFrame(txns, txns1, outbox);
    PartiesKnown(accounts, txns);
    TracesFrame(accounts, accounts, txns, txns1, bookLog, [], t);
    ProfilesFrame(accounts, accounts, txns, txns1, bookLog, [], t);
    InsertQuota(accounts, txns, t, x);
    InsertStats(accounts, txns, t, x, log);
    InsertZeroSum(accounts, txns, t, x);
  }

  lemma {:induction false} InsertKeepsInv(db: Db, t: TxnNo, x: Txn)
    requires Inv(db) && NewRowOk(db.accounts, db.txns, t, x)
    ensures Inv(db.(txns := db.txns[t := x]))
  {
    InsertKeepsTxnInv(db.accounts, db.txns, t, x, db.accountLog, db.bookLog, db.outbox);
  }

  // ---------- failing ----------

  lemma {:induction false} FailSums(accounts: map<AccountNo, Account>, txns: map<TxnNo, Txn>, t: TxnNo,
                                    log: seq<AccountChange>)
    requires t in txns && txns[t].status == Init
    requires QuotaOk(txns) && StatsOk(txns, log) && ZeroSum(accounts, txns) && (forall e | e in log :: e.txn in txns)
    ensures var txns1 := txns[t := txns[t].(status := Failed)];
            QuotaOk(txns1) && StatsOk(txns1, log) && ZeroSum(accounts, txns1)
  {
    var x := txns[t].(status := Failed);
    var txns1 := txns[t := x];
    assert Grows(txns, txns1);
    forall o | o in txns1 && txns1[o].biz == Transfer
      ensures QuotaKept(txns1, o) && StatsAgree(txns1, log, o)
    {
      assert QuotaKept(txns, o) && StatsAgree(txns, log, o) && SameTerms(txns[o], txns1[o]);
      SumMapUpdate(RefundedBy(o), txns, t, x);
      StatsFrame(txns, txns1, txns[o].merchant, o, txns[o].credit, log);
    }
    forall m: MerchantNo
      ensures Balanced(accounts, txns1, m)
    {
      assert Balanced(accounts, txns, m);
      SumMapUpdate(InFlight(m), txns, t, x);
    }
  }

  lemma {:induction false} FailKeepsTxnInv(accounts: map<AccountNo, Account>, txns: map<TxnNo, Txn>, t: TxnNo,
                                           log: seq<AccountChange>, bookLog: seq<BookChange>, outbox: seq<OutboxEvent>)
    requires TxnInv(accounts, txns, log, bookLog, outbox) && t in txns && txns[t].status == Init
    ensures TxnInv(accounts, txns[t := txns[t].(status := Failed)], log, bookLog, outbox)
  {
    var txns1 := txns[t := txns[t].(status := Failed)];
    assert Grows(txns, txns1);
    forall u | u in txns
      ensures txns1[u].refundable >= 0 && (Debited(txns1[u].status) ==> txns[u].debit != "")
    {
      assert TxnOk(accounts, txns, txns[u]);
    }
    TxnsFrame(accounts, accounts, txns, txns1);
    TradesFrame(txns, txns1);
    JournalFrame(txns, txns1, log);
    assert bookLog + [] == bookLog;
    BookJournalFrame(txns, txns1, bookLog, []);
    OutboxFrame(txns, txns1, outbox);
    PartiesKnown(accounts, txns);
    TracesFrame(accounts, accounts, txns, txns1, bookLog, [], t);
    ProfilesFrame(accounts, accounts, txns, txns1, bookLog, [], t);
    FailSums(accounts, txns, t, log);
  }

  lemma {:induction false} FailKeepsInv(db: Db, t: TxnNo)
    requires Inv(db) && t in db.txns && db.txns[t].status == Init
    ensures Inv(Transition(db, t, Init, Failed))
  {
    FailKeepsTxnInv(db.accounts, db.txns, t, db.accountLog, db.bookLog, db.outbox);
  }

  // ---------- accounts ----------

  lemma {:induction false} FirstBook()
    ensures var bs := [Book(NO_EXPIRE, 0)];
            && Has(bs, NO_EXPIRE) && Total(bs) == 0 && DatedNonNegative(bs)
            && forall d: Date :: BalanceAt(bs, d) == 0
  {
    var bs := [Book(NO_EXPIRE, 0)];
    SumOne((b: Book) => b.balance, Book(NO_EXPIRE, 0));
    assert Book(NO_EXPIRE, 0) in bs && bs[1..] == [];
  }

  lemma {:induction false} OpenMoney(merchants: map<MerchantNo, AccountNo>, accounts: map<AccountNo, Account>,
                                     books: map<AccountNo, seq<Book>>,
                                     log: seq<AccountChange>, bookLog: seq<BookChange>, no: AccountNo, a: Account)
    requires MoneyInv(merchants, accounts, books, log, bookLog) && no !in accounts && no != "" && a.balance == 0
    ensures var bs := if a.bookEnabled then [Book(NO_EXPIRE, 0)] else [];
            MoneyInv(merchants, accounts[no := a], books[no := bs], log, bookLog)
  {
    var accounts1 := accounts[no := a];
    var bs := if a.bookEnabled then [Book(NO_EXPIRE, 0)] else [];
    var books1 := books[no := bs];
    if a.bookEnabled {
      FirstBook();
    }
    assert AccountOk(a, bs);
    forall b | b in accounts1
      ensures AccountOk(accounts1[b], books1[b])
    {
      assert b != no ==> AccountOk(accounts[b], books[b]);
    }
    forall m | m in merchants
      ensures WriteoffOk(accounts1, m, merchants[m])
    {
      assert WriteoffOk(accounts, m, merchants[m]);
    }
    OpenLogs(accounts, books, log, bookLog, no, a, bs);
  }

  lemma {:induction false} OpenLogs(accounts: map<AccountNo, Account>, books: map<AccountNo, seq<Book>>,
                                    log: seq<AccountChange>, bookLog: seq<BookChange>, no: AccountNo, a: Account,
                                    bs: seq<Book>)
    requires AccountLogOk(accounts, log) && BookLogOk(books, bookLog) && DeltasOk(accounts, log, bookLog)
    requires no !in accounts && no !in books && a.balance == 0 && (bs == [] || bs == [Book(NO_EXPIRE, 0)])
    ensures AccountLogOk(accounts[no := a], log) && BookLogOk(books[no := bs], bookLog)
    ensures DeltasOk(accounts[no := a], log, bookLog)
  {
    var accounts1, books1 := accounts[no := a], books[no := bs];
    forall b: AccountNo
      ensures LogEnds(accounts1, log, b)
    {
      assert LogEnds(accounts, log, b);
    }
    forall b: AccountNo, d: Date
      ensures BookLogEnds(books1, bookLog, b, d)
    {
      assert BookLogEnds(books, bookLog, b, d);
      FirstBook();
    }
    forall e | e in log
      ensures Known(accounts1, e.account) && e.account != no
    {
      assert Known(accounts, e.account);
    }
    forall c | c in bookLog
      ensures IsBook(accounts1, c.account) && c.account != no
    {
      assert IsBook(accounts, c.account);
    }
    forall t: TxnNo, b: AccountNo | IsBook(accounts1, b)
      ensures DeltasAgree(log, bookLog, t, b)
    {
      if b == no {
        SumZero(BookDelta(t, b), bookLog);
        SumZero(AccountDelta(t, b), log);
      } else {
        assert IsBook(accounts, b);
      }
    }
  }

  /** Nothing the transaction table says depends on accounts it does not name. */
  lemma {:induction false} AccountsKeepTxnInv(accounts: map<AccountNo, Account>, accounts1: map<AccountNo, Account>,
                                              txns: map<TxnNo, Txn>,
                                              log: seq<AccountChange>, bookLog: seq<BookChange>,
                                              outbox: seq<OutboxEvent>)
    requires TxnInv(accounts, txns, log, bookLog, outbox) && AccountsGrow(accounts, accounts1)
    requires ZeroSum(accounts1, txns)
    ensures TxnInv(accounts1, txns, log, bookLog, outbox)
  {
    forall u | u in txns
      ensures txns[u].refundable >= 0 && (Debited(txns[u].status) ==> txns[u].debit != "")
    {
      assert TxnOk(accounts, txns, txns[u]);
    }
    TxnsFrame(accounts, accounts1, txns, txns);
    PartiesKnown(accounts, txns);
    TracesKnown(accounts, accounts1, txns, bookLog);
  }

  lemma {:induction false} TracesKnown(accounts: map<AccountNo, Account>, accounts1: map<AccountNo, Account>,
                                       txns: map<TxnNo, Txn>,
                                       bookLog: seq<BookChange>)
    requires TracesOk(accounts, txns, bookLog) && ProfilesOk(accounts, txns, bookLog)
    requires AccountsGrow(accounts, accounts1)
    requires forall u | u in txns && Debited(txns[u].status) :: txns[u].debit in accounts && txns[u].credit in accounts
    ensures TracesOk(accounts1, txns, bookLog) && ProfilesOk(accounts1, txns, bookLog)
  {
    forall u | u in txns && Debited(txns[u].status) && IsBook(accounts1, txns[u].debit)
      ensures GoodTrace(Trace(bookLog, u, txns[u].debit), txns[u].amount)
    {
      assert IsBook(accounts, txns[u].debit);
    }
    forall u | u in txns && txns[u].status == RecvSuccess && BookToBook(accounts1, txns[u])
      ensures ProfileKept(bookLog, u, txns[u].debit, txns[u].credit)
    {
      assert BookToBook(accounts, txns[u]);
    }
  }

  lemma {:induction false} CreateAccountKeepsInv(db: Db, no: AccountNo, a: Account)
    requires Inv(db) && CreateAccount(db, no, a).Ok?
    ensures Inv(CreateAccount(db, no, a).value)
  {
    var acc := a.(balance := 0);
    OpenMoney(db.merchants, db.accounts, db.books, db.accountLog, db.bookLog, no, acc);
    var accounts1 := db.accounts[no := acc];
    forall m: MerchantNo
      ensures Balanced(accounts1, db.txns, m)
    {
      assert Balanced(db.accounts, db.txns, m);
      SumMapUpdate(BalanceIn(m), db.accounts, no, acc);
    }
    AccountsKeepTxnInv(db.accounts, db.accounts[no := acc], db.txns, db.accountLog, db.bookLog, db.outbox);
  }

  lemma {:induction false} MerchantKeepsInv(db: Db, m: MerchantNo, w: AccountNo)
    requires Inv(db) && WriteoffOk(db.accounts, m, w)
    ensures Inv(db.(merchants := db.merchants[m := w]))
  {
    var merchants1 := db.merchants[m := w];
    forall n | n in merchants1
      ensures WriteoffOk(db.accounts, n, merchants1[n])
    {
      assert n != m ==> WriteoffOk(db.accounts, n, db.merchants[n]);
    }
  }

  lemma {:induction false} CreateMerchantKeepsInv(db: Db, m: MerchantNo, budget: AccountNo, receivable: AccountNo,
                                                  writeoff: AccountNo)
    requires Inv(db) && CreateMerchant(db, m, budget, receivable, writeoff).Ok?
    ensures Inv(CreateMerchant(db, m, budget, receivable, writeoff).value)
  {
    var a1 := Account(m, true, 0, true, true, true, false, 0);
    var a2 := Account(m, false, 0, true, true, true, false, 0);
    CreateAccountKeepsInv(db, budget, a1);
    var db1 := CreateAccount(db, budget, a1).value;
    CreateAccountKeepsInv(db1, receivable, a2);
    var db2 := CreateAccount(db1, receivable, a2).value;
    if writeoff == "" {
      MerchantKeepsInv(db2, m, "");
    } else {
      CreateAccountKeepsInv(db2, writeoff, WriteoffAccount(m));
      MerchantKeepsInv(CreateAccount(db2, writeoff, WriteoffAccount(m)).value, m, writeoff);
    }
  }

  lemma {:induction false} CapabilitiesMoney(merchants: map<MerchantNo, AccountNo>, accounts: map<AccountNo, Account>,
                                             books: map<AccountNo, seq<Book>>,
                                             log: seq<AccountChange>, bookLog: seq<BookChange>, a: AccountNo,
                                             acc: Account)
    requires MoneyInv(merchants, accounts, books, log, bookLog) && a in accounts
    requires acc == accounts[a].(allowDebitOut := acc.allowDebitOut, allowCreditIn := acc.allowCreditIn,
                                 allowTransfer := acc.allowTransfer)
    ensures MoneyInv(merchants, accounts[a := acc], books, log, bookLog)
  {
    var accounts1 := accounts[a := acc];
    forall b | b in accounts1
      ensures AccountOk(accounts1[b], books[b])
    {
      assert AccountOk(accounts[b], books[b]);
    }
    forall m | m in merchants
      ensures WriteoffOk(accounts1, m, merchants[m])
    {
      assert WriteoffOk(accounts, m, merchants[m]);
    }
    forall b: AccountNo
      ensures LogEnds(accounts1, log, b)
    {
      assert LogEnds(accounts, log, b);
    }
    forall e | e in log
      ensures Known(accounts1, e.account)
    {
      assert Known(accounts, e.account);
    }
    forall c | c in bookLog
      ensures IsBook(accounts1, c.account)
    {
      assert IsBook(accounts, c.account);
    }
    forall t: TxnNo, b: AccountNo | IsBook(accounts1, b)
      ensures DeltasAgree(log, bookLog, t, b)
    {
      assert IsBook(accounts, b);
    }
  }

  lemma {:induction false} SameBalances(accounts: map<AccountNo, Account>, txns: map<TxnNo, Txn>, a: AccountNo,
                                        acc: Account)
    requires ZeroSum(accounts, txns) && a in accounts
    requires acc.merchant == accounts[a].merchant && acc.balance == accounts[a].balance
    ensures ZeroSum(accounts[a := acc], txns)
  {
    var accounts1 := accounts[a := acc];
    forall m: MerchantNo
      ensures Balanced(accounts1, txns, m)
    {
      assert Balanced(accounts, txns, m);
      SumMapUpdate(BalanceIn(m), accounts, a, acc);
    }
  }

  lemma {:induction false} CapabilitiesKeepInv(db: Db, a: AccountNo, debitOut: bool, creditIn: bool, transfer: bool)
    requires Inv(db)
    ensures Inv(SetCapabilities(db, a, debitOut, creditIn, transfer))
  {
    if a in db.accounts {
      var acc := db.accounts[a].(allowDebitOut := debitOut, allowCreditIn := creditIn, allowTransfer := transfer);
      CapabilitiesMoney(db.merchants, db.accounts, db.books, db.accountLog, db.bookLog, a, acc);
      SameBalances(db.accounts, db.txns, a, acc);
      AccountsKeepTxnInv(db.accounts, db.accounts[a := acc], db.txns, db.accountLog, db.bookLog, db.outbox);
    }
  }

  // ---------- submission ----------

  /** What the API handlers send: INIT; for a transfer an amount that is wholly refundable and no
      system scene; for a refund nothing refundable. */
  predicate FromApi(req: Request) {
    && (req.status == None || req.status == Some(Init))
    && (req.biz == Transfer ==> req.refundable == req.amount && req.scene != ExpireWriteoff)
    && (req.biz == Refund ==> req.refundable == 0)
  }

  /** What stays true of a row that has passed the checks of Submit but is not inserted yet. */
  ghost predicate PreparedOk(accounts: map<AccountNo, Account>, txns: map<TxnNo, Txn>, x: Txn) {
    && x.status == Init
    && (Resolves(accounts, x.merchant, x.debit, x.credit) || (x.debit == "" && x.credit == ""))
    && (x.biz == Refund ==> x.refundOf.Some? && x.refundOf.value in txns && RefundLink(x, txns[x.refundOf.value]))
    && (x.biz == Transfer ==> x.scene != ExpireWriteoff && x.refundable == x.amount)
  }

  lemma {:induction false} PrepareChecks(db: Db, req: Request)
    requires FromApi(req) && Prepare(db, req).Ok? && Prepare(db, req).value.amount > 0
    ensures PreparedOk(db.accounts, db.txns, Prepare(db, req).value)
  {
  }

  lemma {:induction false} InsertPrepared(db: Db, t: TxnNo, x: Txn)
    requires Inv(db) && PreparedOk(db.accounts, db.txns, x) && InsertTxn(db, t, x).Ok?
    ensures Inv(InsertTxn(db, t, x).value)
  {
    InsertKeepsInv(db, t, x);
  }

  // ---------- expiry write-off ----------

  lemma {:induction false} EnsureKeepsInv(db: Db, m: MerchantNo, newNo: Option<AccountNo>)
    requires Inv(db) && EnsureWriteoff(db, m, newNo).Ok?
    ensures var (db1, w) := EnsureWriteoff(db, m, newNo).value;
            && Inv(db1) && db1.txns == db.txns && db1.outbox == db.outbox && db1.webhooks == db.webhooks
            && AccountsGrow(db.accounts, db1.accounts)
            && (forall a | a in db.accounts ::
                  && db1.accounts[a] == db.accounts[a]
                  && a in db.books && a in db1.books && db1.books[a] == db.books[a])
            && w != "" && w in db1.accounts && w in db1.books
            && db1.accounts[w].merchant == m && !db1.accounts[w].bookEnabled
  {
    if db.merchants[m] == "" {
      var no := newNo.value;
      CreateAccountKeepsInv(db, no, WriteoffAccount(m));
      MerchantKeepsInv(CreateAccount(db, no, WriteoffAccount(m)).value, m, no);
    } else {
      assert WriteoffOk(db.accounts, m, db.merchants[m]);
    }
  }

  /** A posting neither reads nor writes the transaction table. */
  lemma {:induction false} PostIgnoresTxns(db: Db, txns: map<TxnNo, Txn>, t: TxnNo, a: AccountNo, delta: int,
                                           parts: seq<Part>, day: Date)
    requires a in db.accounts
    ensures Post(db.(txns := txns), t, a, delta, parts, day) == Post(db, t, a, delta, parts, day).(txns := txns)
  {
  }

  lemma {:induction false} DebitPosted(db: Db, txns: map<TxnNo, Txn>, t: TxnNo, parts: seq<Part>, day: Date)
    requires t in txns && txns[t].debit in db.accounts
    ensures DebitTxn(db.(txns := txns), t, parts, day)
         == Post(db, t, txns[t].debit, -txns[t].amount, parts, day).(txns := AfterDebit(txns, t))
  {
    PostIgnoresTxns(db, txns, t, txns[t].debit, -txns[t].amount, parts, day);
  }

  lemma {:induction false} CreditPosted(db: Db, txns: map<TxnNo, Txn>, t: TxnNo, parts: seq<Part>, day: Date)
    requires t in txns && txns[t].credit in db.accounts
    ensures CreditTxn(db.(txns := txns), t, parts, day, {})
         == Post(db, t, txns[t].credit, txns[t].amount, parts, day).(txns := AfterCredit(txns, t))
  {
    PostIgnoresTxns(db, txns, t, txns[t].credit, txns[t].amount, parts, day);
  }

  /** The transaction table on the way: the row is inserted in INIT, then debited, then credited. */
  lemma {:induction false} RowInOne(txns: map<TxnNo, Txn>, t: TxnNo, row: Txn)
    requires row.biz == Transfer && row.status == RecvSuccess
    ensures var txns1 := txns[t := row.(status := Init)];
            && AfterDebit(txns1, t) == txns[t := row.(status := PaySuccess)]
            && AfterCredit(AfterDebit(txns1, t), t) == txns[t := row]
  {
  }

  /** A row as if it had been submitted, and then debited. */
  function DebitedRow(db: Db, t: TxnNo, row: Txn, debits: seq<Part>, day: Date): Db
    requires row.debit in db.accounts
  {
    DebitTxn(db.(txns := db.txns[t := row.(status := Init)]), t, debits, day)
  }

  /** A row that is inserted, debited and credited in one go amounts to two postings and the row. */
  lemma {:induction false} TransferInOne(db: Db, t: TxnNo, row: Txn, debits: seq<Part>, credits: seq<Part>, day: Date)
    requires row.biz == Transfer && row.status == RecvSuccess && row.debit in db.accounts && row.credit in db.accounts
    ensures var db2 := DebitedRow(db, t, row, debits, day);
            var db3 := Post(Post(db, t, row.debit, -row.amount, debits, day), t, row.credit, row.amount, credits, day);
            && t in db2.txns && db2.txns[t] == row.(status := PaySuccess) && row.credit in db2.accounts
            && CreditTxn(db2, t, credits, day, {}) == db3.(txns := db.txns[t := row])
  {
    var txns1 := db.txns[t := row.(status := Init)];
    RowInOne(db.txns, t, row);
    DebitPosted(db, txns1, t, debits, day);
    CreditPosted(Post(db, t, row.debit, -row.amount, debits, day), AfterDebit(txns1, t), t, credits, day);
  }

  /** A finished transfer from a book account to a plain one that can be entered in one commit. */
  ghost predicate CanEnter(db: Db, t: TxnNo, row: Txn, debits: seq<Part>, day: Date) {
    && row.biz == Transfer && row.status == RecvSuccess && row.amount > 0
    && NewRowOk(db.accounts, db.txns, t, row.(status := Init))
    && Resolves(db.accounts, row.merchant, row.debit, row.credit) && row.debit != row.credit
    && row.debit in db.books && !db.accounts[row.credit].bookEnabled
    && PostingOk(db.accounts[row.debit], db.books[row.debit], -row.amount, debits)
    && ClockInRange(day) && PartsSorted(debits) && (forall p | p in debits :: p.amount < 0)
  }

  lemma {:induction false} DebitedRowKeepsInv(db: Db, t: TxnNo, row: Txn, debits: seq<Part>, day: Date)
    requires Inv(db) && CanEnter(db, t, row, debits, day)
    ensures Inv(DebitedRow(db, t, row, debits, day))
  {
    InsertKeepsInv(db, t, row.(status := Init));
    DebitKeepsInv(db.(txns := db.txns[t := row.(status := Init)]), t, debits, day);
  }

  /** The credit of an account without books. */
  lemma {:induction false} PlainCreditKeepsInv(db: Db, t: TxnNo, day: Date)
    requires Inv(db) && CreditReady(db.accounts, db.txns, t) && db.txns[t].amount > 0
    requires !db.accounts[db.txns[t].credit].bookEnabled
    ensures Inv(CreditTxn(db, t, [], day, {}))
  {
    var w := db.txns[t].credit;
    assert AccountOk(db.accounts[w], db.books[w]);
    CreditPostingOk(db.accounts[w], db.books[w], db.txns[t].amount, []);
    CreditKeepsInv(db, t, [], day, {});
  }

  lemma {:induction false} DebitedRowReady(db: Db, t: TxnNo, row: Txn, debits: seq<Part>, day: Date)
    requires CanEnter(db, t, row, debits, day)
    ensures var db2 := DebitedRow(db, t, row, debits, day);
            && CreditReady(db2.accounts, db2.txns, t)
            && db2.txns[t] == row.(status := PaySuccess) && !db2.accounts[row.credit].bookEnabled
  {
    TransferInOne(db, t, row, debits, [], day);
  }

  lemma {:induction false} InOneKeepsInv(db: Db, t: TxnNo, row: Txn, debits: seq<Part>, day: Date, entered: Db)
    requires Inv(db) && CanEnter(db, t, row, debits, day)
    requires var db3 := Post(Post(db, t, row.debit, -row.amount, debits, day), t, row.credit, row.amount, [], day);
             entered == db3.(txns := db.txns[t := row])
    ensures Inv(entered)
  {
    DebitedRowKeepsInv(db, t, row, debits, day);
    DebitedRowReady(db, t, row, debits, day);
    PlainCreditKeepsInv(DebitedRow(db, t, row, debits, day), t, day);
    TransferInOne(db, t, row, debits, [], day);
  }

  ghost predicate CanWriteOff(db: Db, a: AccountNo, w: AccountNo, t: TxnNo, today: Date) {
    && IsBook(db.accounts, a) && a in db.books && Expired(db.books[a], today) != []
    && w != "" && w in db.accounts && w in db.books
    && db.accounts[w].merchant == db.accounts[a].merchant && !db.accounts[w].bookEnabled
    && t !in db.txns && !TradeTaken(db.txns, db.accounts[a].merchant, WriteoffTradeNo(a, t)) && ClockInRange(today)
  }

  lemma {:induction false} WriteOffCanEnter(db: Db, a: AccountNo, w: AccountNo, t: TxnNo, today: Date)
    requires Inv(db) && CanWriteOff(db, a, w, t, today)
    ensures var row := WriteoffRow(db, a, w, t, Total(Expired(BooksOf(db, a), today)));
            CanEnter(db, t, row, SweepParts(BooksOf(db, a), today), today)
  {
    assert AccountOk(db.accounts[a], db.books[a]) && "" !in db.accounts;
    SweepOnBooks(db.books[a], today);
    SweepPostingOk(db.accounts[a], db.books[a], today);
  }

  lemma {:induction false} WriteOffToPlain(db: Db, a: AccountNo, w: AccountNo, t: TxnNo, today: Date)
    requires a in db.accounts && w in db.accounts && w != a && !db.accounts[w].bookEnabled
    ensures var row := WriteoffRow(db, a, w, t, Total(Expired(BooksOf(db, a), today)));
            var parts := SweepParts(BooksOf(db, a), today);
            var db3 := Post(Post(db, t, row.debit, -row.amount, parts, today), t, row.credit, row.amount, [], today);
            WriteOff(db, a, w, t, today) == db3.(txns := db.txns[t := row])
  {
    var total, parts := Total(Expired(BooksOf(db, a), today)), SweepParts(BooksOf(db, a), today);
    assert Post(db, t, a, -total, parts, today).accounts[w] == db.accounts[w];
  }

  /** A write-off is a transaction that is submitted, debited and credited in one commit, and keeps
      the invariant as such. */
  lemma {:induction false} WriteOffKeepsInv(db: Db, a: AccountNo, w: AccountNo, t: TxnNo, today: Date)
    requires Inv(db) && CanWriteOff(db, a, w, t, today)
    ensures Inv(WriteOff(db, a, w, t, today))
  {
    var total, parts := Total(Expired(BooksOf(db, a), today)), SweepParts(BooksOf(db, a), today);
    WriteOffCanEnter(db, a, w, t, today);
    WriteOffToPlain(db, a, w, t, today);
    InOneKeepsInv(db, t, WriteoffRow(db, a, w, t, total), parts, today, WriteOff(db, a, w, t, today));
  }
}
