/** A legal run in which two refunds overlap: 10 issued into each of two books, 20 paid, and the 20
    refunded as 10 and 10 while both refunds are between their stages. */
module OverlapRun {
  import opened Domain
  import opened Collections
  import opened Books
  import opened Fefo
  import opened Refunds
  import opened Ledger
  import opened Invariants
  import opened Frames
  import opened Effects
  import opened Maintenance
  import opened Stages
  import opened Runs
  import opened RefundHistory
  import opened RefundLog
  import opened Overlap

  // ---------- what undisturbed events do in any run ----------

  lemma {:induction false} SubmitInRun(run: seq<Event>, t: TxnNo, req: Request)
    requires AllLegal(run) && FromApi(req)
    requires Prepare(Run(run).db, req).Ok? && InsertTxn(Run(run).db, t, Prepare(Run(run).db, req).value).Ok?
    ensures var db := Run(run).db;
            var x := Prepare(db, req).value;
            var longer := run + [Validated(req)] + [Inserted(t, x)];
            AllLegal(longer) && Run(longer).db == db.(txns := db.txns[t := x])
  {
    var x := Prepare(Run(run).db, req).value;
    LegalSnoc(run, Validated(req));
    LegalSnoc(run + [Validated(req)], Inserted(t, x));
  }

  /** The debit account has nothing expired and enough available. */
  ghost predicate CanPay(db: Db, t: TxnNo, today: Date) {
    && t in db.txns && DebitReady(db.accounts, db.txns, t)
    && var x := db.txns[t];
    && (!db.accounts[x.debit].bookEnabled || Expired(BooksOf(db, x.debit), today) == [])
    && CanDebit(db.accounts[x.debit], AvailableBalance(db, x.debit, today), x.amount)
  }

  lemma {:induction false} DebitSucceeds(db: Db, t: TxnNo, env: Env)
    requires Inv(db) && CanPay(db, t, env.today) && ClockInRange(env.today)
    ensures var x := db.txns[t];
            && x.amount > 0
            && StageInit(db, t, env) == Ok(DebitTxn(db, t, DebitParts(db, x.debit, x.amount, env.today), env.today))
  {
    var x := db.txns[t];
    assert Sweep(db, x.debit, env) == Ok(db);
    DebitRefinesPlainCheck(db, t, x.debit, x.amount, env);
    StageInitIsDebit(db, t, env);
  }

  lemma {:induction false} DebitInRun(run: seq<Event>, t: TxnNo, env: Env)
    requires AllLegal(run) && CanPay(Run(run).db, t, env.today) && ClockInRange(env.today)
    ensures var db := Run(run).db;
            var x := db.txns[t];
            var longer := run + [StageTried(t, Init, env)];
            && x.amount > 0 && AllLegal(longer)
            && Run(longer).db == DebitTxn(db, t, DebitParts(db, x.debit, x.amount, env.today), env.today)
  {
    RunsKeepInv(run);
    DebitSucceeds(Run(run).db, t, env);
    LegalSnoc(run, StageTried(t, Init, env));
  }

  lemma {:induction false} CreditInRun(run: seq<Event>, t: TxnNo, env: Env)
    requires AllLegal(run) && ClockInRange(env.today)
    requires t in Run(run).db.txns && Run(run).db.txns[t].status == PaySuccess
    ensures var db := Run(run).db;
            var longer := run + [StageTried(t, PaySuccess, env)];
            && CreditReady(db.accounts, db.txns, t) && (db.txns[t].biz == Refund ==> db.txns[t].refundOf.Some?)
            && AllLegal(longer)
            && Run(longer).db == CreditTxn(db, t, CreditPartsOf(db, t, env.today), env.today, db.webhooks)
  {
    RunsKeepInv(run);
    StagePaySucceeds(Run(run).db, t, env);
    LegalSnoc(run, StageTried(t, PaySuccess, env));
  }

  /** The four events of a transfer that nothing disturbs. */
  function TransferEvents(t: TxnNo, req: Request, env: Env): seq<Event> {
    [Validated(req)] + [Inserted(t, RowOf(req))] + [StageTried(t, Init, env)] + [StageTried(t, PaySuccess, env)]
  }

  function Moved(accounts: map<AccountNo, Account>, a: AccountNo, delta: int): map<AccountNo, Account>
    requires a in accounts
  {
    accounts[a := accounts[a].(balance := accounts[a].balance + delta)]
  }

  /** A transfer request that can be served at once. */
  ghost predicate Servable(db: Db, t: TxnNo, req: Request, today: Date) {
    && FromApi(req) && req.biz == Transfer && req.scene != P2P && req.debit != req.credit
    && Prepare(db, req) == Ok(RowOf(req)) && InsertTxn(db, t, RowOf(req)).Ok?
    && Resolves(db.accounts, req.merchant, req.debit, req.credit) && req.debit in db.books && req.credit in db.books
    && (!db.accounts[req.debit].bookEnabled || Expired(db.books[req.debit], today) == [])
    && CanDebit(db.accounts[req.debit], AvailableBalance(db, req.debit, today), req.amount)
  }

  /** What is drawn from the books of the debit account. */
  function Drawn(db: Db, req: Request, today: Date): seq<Part>
    requires req.debit in db.accounts && req.amount > 0
  {
    DebitParts(db, req.debit, req.amount, today)
  }

  /** What is logged for the books of the debit account. */
  function Entries(db: Db, t: TxnNo, req: Request, today: Date): seq<BookChange>
    requires req.debit in db.accounts && req.debit in db.books && req.amount > 0
  {
    PartChanges(t, req.debit, db.books[req.debit], Drawn(db, req, today), today)
  }

  lemma {:induction false} ServableCanPay(db: Db, t: TxnNo, req: Request, today: Date)
    requires Servable(db, t, req, today)
    ensures var db0 := db.(txns := db.txns[t := RowOf(req)]);
            && CanPay(db0, t, today) && req.amount > 0
            && DebitParts(db0, req.debit, req.amount, today) == Drawn(db, req, today)
  {
    var db0 := db.(txns := db.txns[t := RowOf(req)]);
    assert AvailableBalance(db0, req.debit, today) == AvailableBalance(db, req.debit, today);
  }

  /** The tables after the debit of a request that can be served. */
  lemma {:induction false} DebitedTables(db: Db, t: TxnNo, req: Request, today: Date)
    requires Servable(db, t, req, today)
    ensures var db0 := db.(txns := db.txns[t := RowOf(req)]);
            var db1 := DebitTxn(db0, t, Drawn(db, req, today), today);
            && db1.accounts == Moved(db.accounts, req.debit, -req.amount)
            && db1.books == db.books[req.debit := ApplyParts(db.books[req.debit], Drawn(db, req, today))]
            && db1.txns == db.txns[t := RowOf(req).(status := PaySuccess)]
            && db1.bookLog == db.bookLog + Entries(db, t, req, today)
  {
    DebitTables(db.(txns := db.txns[t := RowOf(req)]), t, Drawn(db, req, today), today);
  }

  /** The tables after the credit of a plain transfer. */
  lemma {:induction false} CreditedTables(db: Db, t: TxnNo, req: Request, today: Date)
    requires req.biz == Transfer && req.scene != P2P && req.credit in db.books
    requires t in db.txns && db.txns[t] == RowOf(req).(status := PaySuccess)
    requires CreditReady(db.accounts, db.txns, t)
    ensures var db1 := CreditTxn(db, t, CreditPartsOf(db, t, today), today, db.webhooks);
            var credits := PlainParts(db.accounts[req.credit], req.amount, req.creditExpireAt);
            && db1.accounts == Moved(db.accounts, req.credit, req.amount)
            && db1.books == db.books[req.credit := ApplyParts(db.books[req.credit], credits)]
            && db1.txns == db.txns[t := RowOf(req).(status := RecvSuccess)]
            && (!db.accounts[req.credit].bookEnabled ==> db1.bookLog == db.bookLog)
  {
    CreditTables(db, t, CreditPartsOf(db, t, today), today, db.webhooks);
  }

  lemma {:induction false} TransferHalf(run: seq<Event>, t: TxnNo, req: Request, env: Env)
    requires AllLegal(run) && Servable(Run(run).db, t, req, env.today) && ClockInRange(env.today)
    ensures var db := Run(run).db;
            var half := run + [Validated(req)] + [Inserted(t, RowOf(req))] + [StageTried(t, Init, env)];
            var db1 := Run(half).db;
            && req.amount > 0 && AllLegal(half)
            && db1.accounts == Moved(db.accounts, req.debit, -req.amount)
            && db1.books == db.books[req.debit := ApplyParts(db.books[req.debit], Drawn(db, req, env.today))]
            && db1.txns == db.txns[t := RowOf(req).(status := PaySuccess)]
            && db1.bookLog == db.bookLog + Entries(db, t, req, env.today)
  {
    var db := Run(run).db;
    var submitted := run + [Validated(req)] + [Inserted(t, RowOf(req))];
    SubmitInRun(run, t, req);
    ServableCanPay(db, t, req, env.today);
    DebitInRun(submitted, t, env);
    DebitedTables(db, t, req, env.today);
  }

  /** An undisturbed transfer moves the money and the books, and is finished. */
  lemma {:induction false} TransferInRun(run: seq<Event>, t: TxnNo, req: Request, env: Env)
    requires AllLegal(run) && Servable(Run(run).db, t, req, env.today) && ClockInRange(env.today)
    ensures var db := Run(run).db;
            var longer := run + TransferEvents(t, req, env);
            var db1 := Run(longer).db;
            && req.amount > 0 && AllLegal(longer)
            && db1.accounts == Moved(Moved(db.accounts, req.debit, -req.amount), req.credit, req.amount)
            && var credits := PlainParts(db.accounts[req.credit], req.amount, req.creditExpireAt);
            && db1.books == db.books[req.debit := ApplyParts(db.books[req.debit], Drawn(db, req, env.today))]
                                    [req.credit := ApplyParts(db.books[req.credit], credits)]
            && db1.txns == db.txns[t := RowOf(req).(status := RecvSuccess)]
            && (!db.accounts[req.credit].bookEnabled ==>
                  db1.bookLog == db.bookLog + Entries(db, t, req, env.today))
  {
    var db := Run(run).db;
    var half := run + [Validated(req)] + [Inserted(t, RowOf(req))] + [StageTried(t, Init, env)];
    TransferHalf(run, t, req, env);
    CreditInRun(half, t, env);
    CreditedTables(Run(half).db, t, req, env.today);
    assert half + [StageTried(t, PaySuccess, env)] == run + TransferEvents(t, req, env);
  }

  // ---------- the example ----------

  /** A merchant, its budget and receivable accounts, a customer's book account, and the numbers of
      two issues, one payment and two refunds. */
  datatype Names = Names(
    m: MerchantNo, b: AccountNo, r: AccountNo, c: AccountNo,
    i1: TxnNo, i2: TxnNo, o: TxnNo, r1: TxnNo, r2: TxnNo)

  predicate Different(n: Names) {
    && n.b != "" && n.r != "" && n.c != "" && n.b != n.r && n.b != n.c && n.r != n.c
    && n.i1 != n.i2 && n.o !in {n.i1, n.i2} && n.r1 !in {n.i1, n.i2, n.o} && n.r2 !in {n.i1, n.i2, n.o, n.r1}
  }

  const DAY: Date := 1
  const ENV := Env(DAY, "", None)
  const FIRST: Date := 11
  const SECOND: Date := 21

  function Holdings(n: Names, budget: int, receivable: int, customer: int): map<AccountNo, Account> {
    map[n.b := Account(n.m, true, 0, true, true, true, false, budget),
        n.r := Account(n.m, false, 0, true, true, true, false, receivable),
        n.c := Account(n.m, false, 0, true, true, true, true, customer)]
  }

  function Shelves(n: Names, bs: seq<Book>): map<AccountNo, seq<Book>> {
    map[n.b := [], n.r := [], n.c := bs]
  }

  /** Every trade number is the number of its transaction. */
  ghost predicate TradesNamed(txns: map<TxnNo, Txn>) {
    forall t | t in txns :: txns[t].outTradeNo == t
  }

  /** No refund has been credited yet. */
  ghost predicate NoneCredited(txns: map<TxnNo, Txn>) {
    forall t | t in txns :: txns[t].biz == Refund ==> txns[t].status == PaySuccess
  }

  ghost predicate At(run: seq<Event>, n: Names, budget: int, receivable: int, customer: int, bs: seq<Book>) {
    && AllLegal(run)
    && Run(run).db.accounts == Holdings(n, budget, receivable, customer)
    && Run(run).db.books == Shelves(n, bs)
    && TradesNamed(Run(run).db.txns) && NoneCredited(Run(run).db.txns)
  }

  function Customer(n: Names): Account {
    Account(n.m, false, 0, true, true, true, true, 0)
  }

  function Opening(n: Names): seq<Event> {
    [MerchantOpened(n.m, n.b, n.r, "")] + [AccountOpened(n.c, Customer(n))]
  }

  lemma {:induction false} MerchantTables(n: Names)
    requires Different(n)
    ensures var r := CreateMerchant(EMPTY, n.m, n.b, n.r, "");
            && r.Ok? && r.value.accounts == Holdings(n, 0, 0, 0) - {n.c}
            && r.value.books == map[n.b := [], n.r := []] && r.value.txns == map[] && r.value.bookLog == []
  {
  }

  lemma {:induction false} CustomerTables(db: Db, n: Names)
    requires Different(n) && db.accounts == Holdings(n, 0, 0, 0) - {n.c} && db.books == map[n.b := [], n.r := []]
    ensures var r := CreateAccount(db, n.c, Customer(n));
            && r.Ok? && r.value.accounts == Holdings(n, 0, 0, 0)
            && r.value.books == Shelves(n, [Book(NO_EXPIRE, 0)])
            && r.value.txns == db.txns && r.value.bookLog == db.bookLog
  {
  }

  lemma {:induction false} Opened(n: Names)
    requires Different(n)
    ensures At(Opening(n), n, 0, 0, 0, [Book(NO_EXPIRE, 0)])
    ensures Run(Opening(n)).db.txns == map[] && Run(Opening(n)).db.bookLog == []
  {
    var e, f := MerchantOpened(n.m, n.b, n.r, ""), AccountOpened(n.c, Customer(n));
    LegalSnoc([], e);
    LegalSnoc([e], f);
    assert [] + [e] == [e] && Run([]) == START;
    MerchantTables(n);
    CustomerTables(Run([e]).db, n);
  }

  function IssueOf(n: Names, t: TxnNo, expireAt: Date): Request {
    Request(n.m, t, Transfer, Issue, n.b, n.c, Some(expireAt), None, 10, 10, None)
  }

  lemma {:induction false} FreeTrade(txns: map<TxnNo, Txn>, m: MerchantNo, t: TxnNo)
    requires TradesNamed(txns) && t !in txns
    ensures !TradeTaken(txns, m, t)
  {
  }

  lemma {:induction false} IssueServable(db: Db, n: Names, budget: int, customer: int, bs: seq<Book>, t: TxnNo,
                                         expireAt: Date)
    requires Different(n) && db.accounts == Holdings(n, budget, 0, customer) && db.books == Shelves(n, bs)
    requires TradesNamed(db.txns) && t !in db.txns
    ensures Servable(db, t, IssueOf(n, t, expireAt), DAY) && Drawn(db, IssueOf(n, t, expireAt), DAY) == []
  {
    FreeTrade(db.txns, n.m, t);
  }

  lemma {:induction false} IssueTables(n: Names, budget: int, customer: int, bs: seq<Book>, expireAt: Date)
    requires Different(n)
    ensures Moved(Moved(Holdings(n, budget, 0, customer), n.b, -10), n.c, 10)
         == Holdings(n, budget - 10, 0, customer + 10)
    ensures Shelves(n, bs)[n.b := ApplyParts([], [])][n.c := ApplyParts(bs, [Part(expireAt, 10)])]
         == Shelves(n, Upsert(bs, expireAt, 10))
  {
    assert ApplyParts(bs, [Part(expireAt, 10)]) == Upsert(ApplyParts(bs, []), expireAt, 10);
  }

  /** Issuing 10 into the customer's book of a date. */
  lemma {:induction false} Issued(run: seq<Event>, n: Names, budget: int, customer: int, bs: seq<Book>, t: TxnNo,
                                  expireAt: Date)
    requires Different(n) && At(run, n, budget, 0, customer, bs) && t !in Run(run).db.txns
    ensures var longer := run + TransferEvents(t, IssueOf(n, t, expireAt), ENV);
            && At(longer, n, budget - 10, 0, customer + 10, Upsert(bs, expireAt, 10))
            && Run(longer).db.txns.Keys == Run(run).db.txns.Keys + {t}
  {
    IssueServable(Run(run).db, n, budget, customer, bs, t, expireAt);
    TransferInRun(run, t, IssueOf(n, t, expireAt), ENV);
    IssueTables(n, budget, customer, bs, expireAt);
  }

  // ---------- the payment ----------

  /** The customer's books: 10 in each dated book; after the payment; and after the two refunds. */
  const FULL := [Book(FIRST, 10), Book(SECOND, 10), Book(NO_EXPIRE, 0)]
  const SPENT := [Book(FIRST, 0), Book(SECOND, 0), Book(NO_EXPIRE, 0)]
  const SKEWED := [Book(FIRST, 0), Book(SECOND, 20), Book(NO_EXPIRE, 0)]
  const TAKEN := [Part(FIRST, -10), Part(SECOND, -10)]

  lemma {:induction false} FilledTwice()
    ensures Upsert(Upsert([Book(NO_EXPIRE, 0)], FIRST, 10), SECOND, 10) == FULL
  {
    var one := [Book(FIRST, 10), Book(NO_EXPIRE, 0)];
    assert Upsert([Book(NO_EXPIRE, 0)], FIRST, 10) == one;
    assert one[1..] == [Book(NO_EXPIRE, 0)];
    assert Upsert([Book(NO_EXPIRE, 0)], SECOND, 10) == [Book(SECOND, 10), Book(NO_EXPIRE, 0)];
  }

  lemma {:induction false} FullTails()
    ensures FULL[1..] == [Book(SECOND, 10), Book(NO_EXPIRE, 0)]
    ensures FULL[1..][1..] == [Book(NO_EXPIRE, 0)] && FULL[1..][1..][1..] == []
  {
  }

  lemma {:induction false} FullAvailable()
    ensures AvailableTotal(FULL, DAY) == 20 && Expired(FULL, DAY) == [] && Available(FULL, DAY) == FULL
  {
    FullTails();
    FilterNone((b: Book) => !Usable(b.expireAt, DAY) && b.balance > 0, FULL);
    FilterAll((b: Book) => (b.expireAt > DAY && b.balance > 0) || b.expireAt == NO_EXPIRE, FULL);
    var f := (b: Book) => if Usable(b.expireAt, DAY) then b.balance else 0;
    assert SumBy(f, FULL[1..][1..]) == 0 && SumBy(f, FULL[1..]) == 10;
  }

  lemma {:induction false} FullDrawn()
    ensures Draw(FULL, 20) == TAKEN
  {
    FullTails();
    assert Draw(FULL[1..][1..], 0) == [];
    assert Draw(FULL[1..], 10) == [Part(SECOND, -10)];
  }

  lemma {:induction false} FullEmptied()
    ensures ApplyParts(FULL, TAKEN) == SPENT
  {
    var p, q := Part(FIRST, -10), Part(SECOND, -10);
    assert [p, q][..1] == [p] && [p][..0] == [];
    assert ApplyParts(FULL, [p]) == Upsert(FULL, FIRST, -10);
    var half := [Book(FIRST, 0), Book(SECOND, 10), Book(NO_EXPIRE, 0)];
    assert Upsert(FULL, FIRST, -10) == half;
    assert half[1..] == [Book(SECOND, 10), Book(NO_EXPIRE, 0)];
    assert Upsert(half[1..], SECOND, -10) == [Book(SECOND, 0), Book(NO_EXPIRE, 0)];
  }

  function PaymentOf(n: Names): Request {
    Request(n.m, n.o, Transfer, Consume, n.c, n.r, None, None, 20, 20, None)
  }

  function Origin(n: Names, refundable: int): Txn {
    RowOf(PaymentOf(n)).(status := RecvSuccess, refundable := refundable)
  }

  lemma {:induction false} PaymentServable(db: Db, n: Names)
    requires Different(n) && db.accounts == Holdings(n, -20, 0, 20) && db.books == Shelves(n, FULL)
    requires TradesNamed(db.txns) && n.o !in db.txns
    ensures Servable(db, n.o, PaymentOf(n), DAY) && Drawn(db, PaymentOf(n), DAY) == TAKEN
  {
    FreeTrade(db.txns, n.m, n.o);
    FullAvailable();
    FullDrawn();
  }

  lemma {:induction false} PaymentTables(n: Names)
    requires Different(n)
    ensures Moved(Moved(Holdings(n, -20, 0, 20), n.c, -20), n.r, 20) == Holdings(n, -20, 20, 0)
    ensures Shelves(n, FULL)[n.c := ApplyParts(FULL, TAKEN)][n.r := ApplyParts([], [])] == Shelves(n, SPENT)
  {
    FullEmptied();
  }

  lemma {:induction false} PaymentTrace(log: seq<BookChange>, n: Names)
    requires forall c | c in log :: c.txn != n.o
    ensures Trace(log + PartChanges(n.o, n.c, FULL, TAKEN, DAY), n.o, n.c) == PartChanges(n.o, n.c, FULL, TAKEN, DAY)
  {
    var changes := PartChanges(n.o, n.c, FULL, TAKEN, DAY);
    PartChangesRows(n.o, n.c, FULL, TAKEN, DAY);
    TraceBorn(log, n.o, n.c, changes);
  }

  /** Paying 20 empties both dated books. */
  lemma {:induction false} Paid(run: seq<Event>, n: Names)
    requires Different(n) && At(run, n, -20, 0, 20, FULL) && n.o !in Run(run).db.txns
    ensures var longer := run + TransferEvents(n.o, PaymentOf(n), ENV);
            && At(longer, n, -20, 20, 0, SPENT)
            && Run(longer).db.txns == Run(run).db.txns[n.o := Origin(n, 20)]
            && Trace(Run(longer).db.bookLog, n.o, n.c) == PartChanges(n.o, n.c, FULL, TAKEN, DAY)
  {
    var db := Run(run).db;
    PaymentServable(db, n);
    TransferInRun(run, n.o, PaymentOf(n), ENV);
    PaymentTables(n);
    NoEntriesInRun(run, n.o);
    PaymentTrace(db.bookLog, n);
  }

  lemma {:induction false} NoEntriesInRun(run: seq<Event>, t: TxnNo)
    requires AllLegal(run) && t !in Run(run).db.txns
    ensures forall c | c in Run(run).db.bookLog :: c.txn != t
  {
    RunsKeepInv(run);
    NoEntriesYet(Run(run).db.txns, Run(run).db.bookLog, t);
  }

  // ---------- the refunds ----------

  function RefundRequest(n: Names, t: TxnNo): Request {
    Request(n.m, t, Refund, NoScene, "", "", None, Some(n.o), 10, 0, None)
  }

  function RefundTxn(n: Names, t: TxnNo): Txn {
    RowOf(RefundRequest(n, t)).(debit := n.r, credit := n.c)
  }

  function RefundEvents(n: Names, t: TxnNo): seq<Event> {
    [Validated(RefundRequest(n, t))] + [Inserted(t, RefundTxn(n, t))] + [StageTried(t, Init, ENV)]
  }

  lemma {:induction false} RefundSubmits(db: Db, n: Names, receivable: int, k: int, t: TxnNo)
    requires Different(n) && db.accounts == Holdings(n, -20, receivable, 0)
    requires TradesNamed(db.txns) && t !in db.txns && n.o in db.txns && db.txns[n.o] == Origin(n, k) && k >= 10
    ensures FromApi(RefundRequest(n, t)) && Prepare(db, RefundRequest(n, t)) == Ok(RefundTxn(n, t))
    ensures InsertTxn(db, t, RefundTxn(n, t)) == Ok(db.(txns := db.txns[t := RefundTxn(n, t)]))
  {
    FreeTrade(db.txns, n.m, t);
  }

  lemma {:induction false} RefundCanPay(db: Db, n: Names, receivable: int, k: int, t: TxnNo)
    requires Different(n) && db.accounts == Holdings(n, -20, receivable, 0) && receivable >= 10
    requires t != n.o && n.o in db.txns && db.txns[n.o] == Origin(n, k) && k >= 10
    requires t in db.txns && db.txns[t] == RefundTxn(n, t)
    ensures CanPay(db, t, DAY) && DebitParts(db, n.r, 10, DAY) == []
  {
  }

  lemma {:induction false} RefundTables(n: Names, txns: map<TxnNo, Txn>, receivable: int, k: int, t: TxnNo)
    requires Different(n) && t != n.o && n.o in txns && txns[n.o] == Origin(n, k) && t !in txns
    ensures Moved(Holdings(n, -20, receivable, 0), n.r, -10) == Holdings(n, -20, receivable - 10, 0)
    ensures Shelves(n, SPENT)[n.r := ApplyParts([], [])] == Shelves(n, SPENT)
    ensures AfterDebit(txns[t := RefundTxn(n, t)], t)
         == txns[n.o := Origin(n, k - 10)][t := RefundTxn(n, t).(status := PaySuccess)]
  {
  }

  lemma {:induction false} RefundSubmitted(run: seq<Event>, n: Names, receivable: int, k: int, t: TxnNo)
    requires Different(n) && At(run, n, -20, receivable, 0, SPENT) && k >= 10
    requires n.o in Run(run).db.txns && Run(run).db.txns[n.o] == Origin(n, k) && t !in Run(run).db.txns
    ensures var submitted := run + [Validated(RefundRequest(n, t))] + [Inserted(t, RefundTxn(n, t))];
            var db := Run(run).db;
            AllLegal(submitted) && Run(submitted).db == db.(txns := db.txns[t := RefundTxn(n, t)])
  {
    RefundSubmits(Run(run).db, n, receivable, k, t);
    SubmitInRun(run, t, RefundRequest(n, t));
  }

  /** A refund of 10 is submitted and debited. */
  lemma {:induction false} RefundDebited(run: seq<Event>, n: Names, receivable: int, k: int, t: TxnNo)
    requires Different(n) && At(run, n, -20, receivable, 0, SPENT) && receivable >= 10 && k >= 10
    requires n.o in Run(run).db.txns && Run(run).db.txns[n.o] == Origin(n, k) && t !in Run(run).db.txns
    ensures var longer := run + RefundEvents(n, t);
            && At(longer, n, -20, receivable - 10, 0, SPENT)
            && Run(longer).db.txns
                 == Run(run).db.txns[n.o := Origin(n, k - 10)][t := RefundTxn(n, t).(status := PaySuccess)]
            && Run(longer).db.bookLog == Run(run).db.bookLog
  {
    var submitted := run + [Validated(RefundRequest(n, t))] + [Inserted(t, RefundTxn(n, t))];
    RefundSubmitted(run, n, receivable, k, t);
    RefundCanPay(Run(submitted).db, n, receivable, k, t);
    DebitInRun(submitted, t, ENV);
    RefundDebitTables(Run(run).db, n, receivable, k, t);
    assert submitted + [StageTried(t, Init, ENV)] == run + RefundEvents(n, t);
  }

  lemma {:induction false} RefundDebitTables(db: Db, n: Names, receivable: int, k: int, t: TxnNo)
    requires Different(n) && db.accounts == Holdings(n, -20, receivable, 0) && db.books == Shelves(n, SPENT)
    requires n.o in db.txns && db.txns[n.o] == Origin(n, k) && t !in db.txns
    ensures var db1 := DebitTxn(db.(txns := db.txns[t := RefundTxn(n, t)]), t, [], DAY);
            && db1.accounts == Holdings(n, -20, receivable - 10, 0) && db1.books == Shelves(n, SPENT)
            && db1.txns == db.txns[n.o := Origin(n, k - 10)][t := RefundTxn(n, t).(status := PaySuccess)]
            && db1.bookLog == db.bookLog
  {
    var db0 := db.(txns := db.txns[t := RefundTxn(n, t)]);
    DebitTables(db0, t, [], DAY);
    RefundTables(n, db.txns, receivable, k, t);
    assert db.bookLog + PartChanges(t, n.r, db.books[n.r], [], DAY) == db.bookLog;
  }

  // ---------- the collision ----------

  /** Cut from the payment's trace at 10, a refund of 10 is the second book's part and nothing else. */
  lemma {:induction false} SecondHalf(n: Names)
    ensures RefundParts(PartChanges(n.o, n.c, FULL, TAKEN, DAY), 10, 10, DAY) == [Part(SECOND, 10)]
  {
    var trace := PartChanges(n.o, n.c, FULL, TAKEN, DAY);
    assert trace[1..][1..] == [] && trace[1..][0] == trace[1];
    assert Uses(trace[1..][1..], 0, 0) == [];
    assert Uses(trace[1..], 0, 10) == [10];
    assert Uses(trace, 10, 10) == [0, 10];
    assert [0, 10][1..] == [10] && [10][1..] == [];
    assert Dated([], trace[1..], [10], DAY) == Dated([Part(SECOND, 10)], trace[1..][1..], [], DAY);
  }

  lemma {:induction false} Skewed()
    ensures Upsert(Upsert(SPENT, SECOND, 10), SECOND, 10) == SKEWED
  {
    var half := [Book(FIRST, 0), Book(SECOND, 10), Book(NO_EXPIRE, 0)];
    assert SPENT[1..] == [Book(SECOND, 0), Book(NO_EXPIRE, 0)] && half[1..] == [Book(SECOND, 10), Book(NO_EXPIRE, 0)];
    assert Upsert(SPENT[1..], SECOND, 10) == half[1..];
    assert Upsert(half[1..], SECOND, 10) == [Book(SECOND, 20), Book(NO_EXPIRE, 0)];
  }

  /** A pending refund of 10 with all 20 debited: crediting it fills the second book. */
  ghost predicate SecondHalfDue(db: Db, n: Names, t: TxnNo) {
    && IsBook(db.accounts, n.c) && n.c in db.books
    && t in db.txns && db.txns[t] == RefundTxn(n, t).(status := PaySuccess)
    && n.o in db.txns && db.txns[n.o] == Origin(n, 0)
    && Trace(db.bookLog, n.o, n.c) == PartChanges(n.o, n.c, FULL, TAKEN, DAY)
  }

  lemma {:induction false} AllRefunded(db: Db, n: Names)
    requires Inv(db) && n.o in db.txns && db.txns[n.o] == Origin(n, 0)
    ensures Refunded(db.txns, n.o) == 20
  {
    assert QuotaKept(db.txns, n.o);
  }

  lemma {:induction false} SecondHalfParts(db: Db, n: Names, t: TxnNo)
    requires Inv(db) && SecondHalfDue(db, n, t)
    ensures CreditReady(db.accounts, db.txns, t) && CreditPartsOf(db, t, DAY) == [Part(SECOND, 10)]
  {
    AllRefunded(db, n);
    RefundPartsExact(db, t, DAY);
    SecondHalf(n);
    StagePaySucceeds(db, t, ENV);
  }

  lemma {:induction false} SecondHalfCredited(run: seq<Event>, n: Names, t: TxnNo)
    requires AllLegal(run) && SecondHalfDue(Run(run).db, n, t)
    ensures var longer := run + [StageTried(t, PaySuccess, ENV)];
            var db, db1 := Run(run).db, Run(longer).db;
            && AllLegal(longer) && n.c in db1.books && db1.books[n.c] == Upsert(db.books[n.c], SECOND, 10)
            && db1.txns == db.txns[t := RefundTxn(n, t).(status := RecvSuccess)] && IsBook(db1.accounts, n.c)
            && Trace(db1.bookLog, n.o, n.c) == Trace(db.bookLog, n.o, n.c)
  {
    var db := Run(run).db;
    RunsKeepInv(run);
    SecondHalfParts(db, n, t);
    CreditInRun(run, t, ENV);
    CreditTables(db, t, [Part(SECOND, 10)], DAY, db.webhooks);
    assert ApplyParts(db.books[n.c], [Part(SECOND, 10)]) == Upsert(ApplyParts(db.books[n.c], []), SECOND, 10);
    StepTrace(Run(run), StageTried(t, PaySuccess, ENV), n.o, n.c);
    LegalSnoc(run, StageTried(t, PaySuccess, ENV));
  }

  function UpToIssues(n: Names): seq<Event> {
    Opening(n) + TransferEvents(n.i1, IssueOf(n, n.i1, FIRST), ENV)
    + TransferEvents(n.i2, IssueOf(n, n.i2, SECOND), ENV)
  }

  function UpToPayment(n: Names): seq<Event> {
    UpToIssues(n) + TransferEvents(n.o, PaymentOf(n), ENV)
  }

  function UpToDebits(n: Names): seq<Event> {
    UpToPayment(n) + RefundEvents(n, n.r1) + RefundEvents(n, n.r2)
  }

  function Example(n: Names): seq<Event> {
    UpToDebits(n) + [StageTried(n.r1, PaySuccess, ENV)] + [StageTried(n.r2, PaySuccess, ENV)]
  }

  lemma {:induction false} IssuesMade(n: Names)
    requires Different(n)
    ensures At(UpToIssues(n), n, -20, 0, 20, FULL) && Run(UpToIssues(n)).db.txns.Keys == {n.i1, n.i2}
  {
    Opened(n);
    Issued(Opening(n), n, 0, 0, [Book(NO_EXPIRE, 0)], n.i1, FIRST);
    var run1 := Opening(n) + TransferEvents(n.i1, IssueOf(n, n.i1, FIRST), ENV);
    Issued(run1, n, -10, 10, Upsert([Book(NO_EXPIRE, 0)], FIRST, 10), n.i2, SECOND);
    FilledTwice();
  }

  lemma {:induction false} PaymentMade(n: Names)
    requires Different(n)
    ensures At(UpToPayment(n), n, -20, 20, 0, SPENT)
    ensures var db := Run(UpToPayment(n)).db;
            && db.txns.Keys == {n.i1, n.i2, n.o} && db.txns[n.o] == Origin(n, 20)
            && Trace(db.bookLog, n.o, n.c) == PartChanges(n.o, n.c, FULL, TAKEN, DAY)
  {
    IssuesMade(n);
    Paid(UpToIssues(n), n);
  }

  lemma {:induction false} BothDebited(n: Names)
    requires Different(n)
    ensures At(UpToDebits(n), n, -20, 0, 0, SPENT)
    ensures var db := Run(UpToDebits(n)).db; SecondHalfDue(db, n, n.r1) && SecondHalfDue(db, n, n.r2)
  {
    PaymentMade(n);
    RefundDebited(UpToPayment(n), n, 20, 20, n.r1);
    RefundDebited(UpToPayment(n) + RefundEvents(n, n.r1), n, 10, 10, n.r2);
  }

  lemma {:induction false} NothingRestoredYet(run: seq<Event>, o: TxnNo)
    requires AllLegal(run) && NoneCredited(Run(run).db.txns)
    ensures Slices(run, o) == []
  {
    HistoryInEveryRun(run, o);
    SumMapZero(SettledBy(o), Run(run).db.txns);
    NoTotalNoSlices(Slices(run, o));
  }

  lemma {:induction false} NoTotalNoSlices(slices: seq<Slice>)
    requires (forall s | s in slices :: s.amount > 0) && TotalOf(slices) == 0
    ensures slices == []
  {
    if slices == [] {
    } else {
      TotalPositive(slices);
    }
  }

  lemma {:induction false} TotalPositive(slices: seq<Slice>)
    requires forall s | s in slices :: s.amount > 0
    ensures TotalOf(slices) >= |slices|
  {
    if slices == [] {
    } else {
      assert slices[0] in slices;
      TotalPositive(slices[1..]);
    }
  }

  /** The customer's books after both credits: all 20 in the second book. */
  lemma {:induction false} BooksSkewed(n: Names)
    requires Different(n)
    ensures AllLegal(Example(n)) && n.c in Run(Example(n)).db.books && Run(Example(n)).db.books[n.c] == SKEWED
  {
    BothDebited(n);
    SecondHalfCredited(UpToDebits(n), n, n.r1);
    SecondHalfCredited(UpToDebits(n) + [StageTried(n.r1, PaySuccess, ENV)], n, n.r2);
    Skewed();
  }

  /** The run is legal; its two refunds restore the same slice of the payment, and the customer, who
      paid 10 from each of two books and was refunded in full, gets all of it in the second. */
  lemma {:induction false} OverlapExample(n: Names)
    requires Different(n)
    ensures var run := Example(n);
            && AllLegal(run) && !Serial(run, n.o) && !Disjoint(Slices(run, n.o))
            && Slices(run, n.o) == [Slice(10, 10), Slice(10, 10)]
            && n.c in Run(run).db.books && Run(run).db.books[n.c] == SKEWED
  {
    BooksSkewed(n);
    RefundsPending(n);
    OverlappingRunCollides(UpToDebits(n), n.r1, n.r2, n.o, ENV);
  }

  lemma {:induction false} RefundsPending(n: Names)
    requires Different(n)
    ensures AllLegal(UpToDebits(n)) && Slices(UpToDebits(n), n.o) == []
    ensures var txns := Run(UpToDebits(n)).db.txns;
            && PendingRefund(txns, n.r1, n.o) && PendingRefund(txns, n.r2, n.o)
            && txns[n.r1].amount == 10 == txns[n.r2].amount && Refunded(txns, n.o) == 20
  {
    BothDebited(n);
    RunsKeepInv(UpToDebits(n));
    AllRefunded(Run(UpToDebits(n)).db, n);
    NothingRestoredYet(UpToDebits(n), n.o);
  }

  lemma {:induction false} SomeNames() returns (n: Names)
    ensures Different(n)
  {
    n := Names("m", "b", "r", "c", "1", "2", "3", "4", "5");
    assert "b"[0] == 'b' && "r"[0] == 'r' && "c"[0] == 'c';
    assert "1"[0] == '1' && "2"[0] == '2' && "3"[0] == '3' && "4"[0] == '4' && "5"[0] == '5';
  }

  /** So there are legal runs whose refunds restore slices that are not disjoint. */
  lemma {:induction false} OverlappingRunExists() returns (run: seq<Event>, o: TxnNo)
    ensures AllLegal(run) && !Serial(run, o) && !Disjoint(Slices(run, o))
  {
    var n := SomeNames();
    OverlapExample(n);
    run, o := Example(n), n.o;
  }
}
