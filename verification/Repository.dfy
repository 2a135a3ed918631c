/** The repository: tables that statements update in place, one database
    transaction per stage, rolled back on error. Every operation is proved to do to the tables
    exactly what the ledger's functions say. */
module Repositories {
  import opened Domain
  import opened Collections
  import opened Books
  import opened Fefo
  import opened Refunds
  import opened Ledger
  import opened Invariants
  import opened Postings
  import opened Frames
  import opened Maintenance
  import opened Stages
  import opened Guarantees

  /** No transaction has two events. */
  ghost predicate OneEventEach(outbox: seq<OutboxEvent>) {
    forall i, j | 0 <= i < j < |outbox| :: outbox[i].txn != outbox[j].txn
  }

  /** Whatever a sweep on this day draws on, it leaves the account with this balance. */
  ghost predicate LeftBySweep(db: Db, a: AccountNo, today: Date, balance: int)
    requires a in db.accounts
  {
    forall env: Env {:trigger Sweep(db, a, env)} | env.today == today && Sweep(db, a, env).Ok? ::
      a in Sweep(db, a, env).value.accounts && Sweep(db, a, env).value.accounts[a].balance == balance
  }

  lemma {:induction false} AvailableIsLeft(db: Db, a: AccountNo, today: Date)
    requires Inv(db) && ClockInRange(today) && a in db.accounts
    ensures LeftBySweep(db, a, today, AvailableBalance(db, a, today))
  {
    forall env: Env | env.today == today && Sweep(db, a, env).Ok?
      ensures a in Sweep(db, a, env).value.accounts
      ensures Sweep(db, a, env).value.accounts[a].balance == AvailableBalance(db, a, today)
    {
      SweepKeepsInv(db, a, env);
    }
  }

  /** What is refundable and what has been refunded fall short of the origin's amount by `amount`. */
  ghost predicate Short(txns: map<TxnNo, Txn>, o: TxnNo, amount: int)
    requires o in txns
  {
    txns[o].refundable + Refunded(txns, o) == Quota(txns[o]) - amount
  }

  lemma {:induction false} TakenFromQuota(txns: map<TxnNo, Txn>, o: TxnNo, amount: int)
    requires o in txns && txns[o].biz == Transfer
    ensures QuotaKept(txns, o) ==> Short(txns[o := txns[o].(refundable := txns[o].refundable - amount)], o, amount)
  {
    SumMapUpdate(RefundedBy(o), txns, o, txns[o].(refundable := txns[o].refundable - amount));
  }

  // ---------- planned changes ----------

  function RowOfChange(t: TxnNo, a: AccountNo, c: Planned, day: Date): BookChange {
    BookChange(t, a, c.expireAt, c.delta, c.before, c.after, day)
  }

  function Rows(t: TxnNo, a: AccountNo, changes: seq<Planned>, day: Date): seq<BookChange> {
    seq(|changes|, i requires 0 <= i < |changes| => RowOfChange(t, a, changes[i], day))
  }

  /** Every change starts from the balance its book has. */
  ghost predicate PlannedOn(changes: seq<Planned>, bs: seq<Book>) {
    forall c | c in changes :: c.before == BalanceAt(bs, c.expireAt) && c.after == c.before + c.delta
  }

  lemma {:induction false} RowsArePartChanges(t: TxnNo, a: AccountNo, bs: seq<Book>, changes: seq<Planned>, day: Date)
    requires PlannedOn(changes, bs)
    ensures Rows(t, a, changes, day) == PartChanges(t, a, bs, PartsOf(changes), day)
  {
    forall i | 0 <= i < |changes|
      ensures Rows(t, a, changes, day)[i] == PartChanges(t, a, bs, PartsOf(changes), day)[i]
    {
      assert changes[i] in changes;
    }
  }

  lemma {:induction false} ListedBalances(changes: seq<Planned>, listed: seq<Book>, bs: seq<Book>)
    requires PlannedFrom(changes, listed) && Sorted(bs) && forall b | b in listed :: b in bs
    ensures PlannedOn(changes, bs)
  {
    forall c | c in changes
      ensures c.before == BalanceAt(bs, c.expireAt)
    {
      BalanceAtMember(bs, Book(c.expireAt, c.before));
    }
  }

  /** UPDATE account_book ... FROM payload: books that are there move, others are not made. */
  function UpdateExisting(bs: seq<Book>, parts: seq<Part>): seq<Book> {
    if parts == [] then bs
    else
      var n := |parts| - 1;
      var rest := UpdateExisting(bs, parts[..n]);
      if Has(rest, parts[n].expireAt) then Upsert(rest, parts[n].expireAt, parts[n].amount) else rest
  }

  lemma {:induction false} UpdateIsApply(bs: seq<Book>, parts: seq<Part>)
    requires forall p | p in parts :: Has(bs, p.expireAt)
    ensures UpdateExisting(bs, parts) == ApplyParts(bs, parts)
  {
    if parts == [] {
    } else {
      var n := |parts| - 1;
      assert forall p | p in parts[..n] :: p in parts;
      UpdateIsApply(bs, parts[..n]);
      assert parts[n] in parts;
      ApplyHas(bs, parts[..n], parts[n].expireAt);
    }
  }

  predicate DistinctUpTo(parts: seq<Part>, n: nat)
    requires n <= |parts|
  {
    forall i, j | 0 <= i < j < n :: parts[i].expireAt != parts[j].expireAt
  }

  lemma {:induction false} DistinctNext(parts: seq<Part>, i: nat)
    requires i < |parts| && DistinctUpTo(parts, i)
    ensures DistinctUpTo(parts, i + 1) <==> forall j | 0 <= j < i :: parts[j].expireAt != parts[i].expireAt
    ensures DistinctDates(parts) ==> DistinctUpTo(parts, i + 1)
  {
  }

  /** A second part for a date makes the book end up above what was planned for it. */
  lemma {:induction false} UpsertCheck(bs: seq<Book>, parts: seq<Part>, i: nat)
    requires Sorted(bs) && i < |parts| && forall p | p in parts :: p.amount > 0
    ensures ApplyParts(bs, parts[..i + 1]) == Upsert(ApplyParts(bs, parts[..i]), parts[i].expireAt, parts[i].amount)
    ensures var p := parts[i];
            (BalanceAt(ApplyParts(bs, parts[..i + 1]), p.expireAt) == BalanceAt(bs, p.expireAt) + p.amount) <==>
            (forall j | 0 <= j < i :: parts[j].expireAt != p.expireAt)
  {
    var p := parts[i];
    assert parts[..i + 1][..i] == parts[..i];
    ApplyBalance(bs, parts[..i + 1], p.expireAt);
    PartsAtNext(parts, i);
    assert forall q | q in parts[..i] :: q in parts;
    PartsAtNonNegative(parts[..i], p.expireAt);
    if forall j | 0 <= j < i :: parts[j].expireAt != p.expireAt {
      assert forall q | q in parts[..i] :: q.expireAt != p.expireAt;
    } else {
      var j :| 0 <= j < i && parts[j].expireAt == p.expireAt;
      assert parts[..i][j] in parts[..i];
    }
  }

  lemma {:induction false} PositiveParts(changes: seq<Planned>)
    requires forall c | c in changes :: c.delta > 0
    ensures forall p | p in PartsOf(changes) :: p.amount > 0
  {
    forall p | p in PartsOf(changes)
      ensures p.amount > 0
    {
      var i :| 0 <= i < |changes| && PartsOf(changes)[i] == p;
      assert changes[i] in changes;
    }
  }

  lemma {:induction false} PartsAtNext(parts: seq<Part>, i: nat)
    requires i < |parts|
    ensures PartsAt(parts[..i + 1], parts[i].expireAt) == PartsAt(parts[..i], parts[i].expireAt) + parts[i].amount
  {
    assert parts[..i + 1] == parts[..i] + [parts[i]];
    SumSnoc(AmountOn(parts[i].expireAt), parts[..i], parts[i]);
  }

  lemma {:induction false} UpdatedAsPlanned(bs: seq<Book>, changes: seq<Planned>, i: nat)
    requires Sorted(bs) && PlannedOn(changes, bs) && PartsSorted(PartsOf(changes)) && i < |changes|
    ensures BalanceAt(ApplyParts(bs, PartsOf(changes)), changes[i].expireAt) == changes[i].after
  {
    ApplyBalance(bs, PartsOf(changes), changes[i].expireAt);
    PartsAtMember(PartsOf(changes), i);
    assert changes[i] in changes;
  }

  /** The tables after account entry, account balance, book entries and books of a posting. */
  lemma {:induction false} IsPost(db: Db, db1: Db, t: TxnNo, a: AccountNo, delta: int, changes: seq<Planned>, day: Date)
    requires a in db.accounts && a in db.books && PlannedOn(changes, db.books[a])
    requires var acc := db.accounts[a];
             && db1 == db.(accounts := db1.accounts, books := db1.books,
                           accountLog := db1.accountLog, bookLog := db1.bookLog)
             && db1.accounts == db.accounts[a := acc.(balance := acc.balance + delta)]
             && db1.books == db.books[a := ApplyParts(db.books[a], PartsOf(changes))]
             && db1.accountLog == db.accountLog + [AccountChange(t, a, delta, acc.balance, acc.balance + delta)]
             && db1.bookLog == db.bookLog + Rows(t, a, changes, day)
    ensures db1 == Post(db, t, a, delta, PartsOf(changes), day)
  {
    RowsArePartChanges(t, a, db.books[a], changes, day);
  }

  /** Work out what each credit part does to its book; stop at a part that is not positive. */
  method PlanCredit(bs: seq<Book>, parts: seq<Part>) returns (planned: seq<Planned>, sum: int, positive: bool)
    ensures positive <==> forall p | p in parts :: p.amount > 0
    ensures positive ==> PartsOf(planned) == parts && PlannedOn(planned, bs) && sum == PartsTotal(parts)
    ensures positive ==> forall c | c in planned :: c.delta > 0
  {
    planned, sum, positive := [], 0, true;
    var i := 0;
    while i < |parts|
      invariant 0 <= i <= |parts| && PartsOf(planned) == parts[..i]
      invariant sum == PartsTotal(parts[..i]) && PlannedOn(planned, bs) && positive
      invariant forall c | c in planned :: c.delta > 0
      invariant forall p | p in parts[..i] :: p.amount > 0
    {
      var part := parts[i];
      if part.amount <= 0 {
        assert part in parts;
        positive := false;
        return;
      }
      sum := sum + part.amount;
      var before := BalanceAt(bs, part.expireAt);
      assert parts[..i + 1] == parts[..i] + [part];
      SumSnoc((p: Part) => p.amount, parts[..i], part);
      planned := planned + [Planned(part.expireAt, part.amount, before, before + part.amount)];
      i := i + 1;
    }
    assert parts[..i] == parts;
  }

  function Emptied(bs: seq<Book>): (r: seq<Planned>)
    ensures |r| == |bs|
  {
    seq(|bs|, i requires 0 <= i < |bs| => Planned(bs[i].expireAt, -bs[i].balance, bs[i].balance, 0))
  }

  /** The plan of a sweep: what it writes is what the sweep's parts say. */
  lemma {:induction false} EmptiedIsSweep(bs: seq<Book>, today: Date)
    requires Sorted(bs) && DatedNonNegative(bs)
    ensures var changes := Emptied(Expired(bs, today));
            && PartsOf(changes) == SweepParts(bs, today) && PlannedOn(changes, bs) && PartsSorted(PartsOf(changes))
            && (forall p | p in PartsOf(changes) :: Has(bs, p.expireAt))
    ensures forall b | b in Expired(bs, today) :: b.balance > 0
    ensures Expired(bs, today) != [] ==> Total(Expired(bs, today)) > 0
  {
    var expired := Expired(bs, today);
    var changes := Emptied(expired);
    SweepOnBooks(bs, today);
    ExpiredMembers(bs, today);
    forall c | c in changes
      ensures c.before == BalanceAt(bs, c.expireAt) && c.after == c.before + c.delta
    {
      var i :| 0 <= i < |expired| && changes[i] == c;
      assert expired[i] in expired;
      BalanceAtMember(bs, expired[i]);
    }
    assert PartsOf(changes) == SweepParts(bs, today);
  }

  predicate HoldsMoney(b: Book) {
    b.balance > 0
  }

  /** Add up the books that hold money and plan to empty them. */
  method PlanSweep(expired: seq<Book>) returns (total: int, changes: seq<Planned>)
    ensures total == Total(Filter(HoldsMoney, expired)) && changes == Emptied(Filter(HoldsMoney, expired))
  {
    total, changes := 0, [];
    var i := 0;
    while i < |expired|
      invariant 0 <= i <= |expired|
      invariant total == Total(Filter(HoldsMoney, expired[..i])) && changes == Emptied(Filter(HoldsMoney, expired[..i]))
    {
      var book := expired[i];
      FilterNext(HoldsMoney, expired, i);
      i := i + 1;
      if book.balance <= 0 {
        continue;
      }
      EmptiedNext(Filter(HoldsMoney, expired[..i - 1]), book);
      total := total + book.balance;
      changes := changes + [Planned(book.expireAt, -book.balance, book.balance, 0)];
    }
    assert expired[..i] == expired;
  }

  lemma {:induction false} EmptiedNext(bs: seq<Book>, b: Book)
    ensures Total(bs + [b]) == Total(bs) + b.balance
    ensures Emptied(bs + [b]) == Emptied(bs) + [Planned(b.expireAt, -b.balance, b.balance, 0)]
  {
    SumSnoc((x: Book) => x.balance, bs, b);
  }

  // ---------- listings ----------

  lemma {:induction false} AvailableListed(bs: seq<Book>, today: Date)
    ensures forall b | b in Available(bs, today) :: b in bs
  {
    forall b | b in Available(bs, today)
      ensures b in bs
    {
      FilterMember((b: Book) => (b.expireAt > today && b.balance > 0) || b.expireAt == NO_EXPIRE, bs, b);
    }
  }

  /** The write-off account is a plain one, and not the account being swept. */
  lemma {:induction false} WriteoffReady(db: Db, a: AccountNo, env: Env)
    requires AccountsOk(db.accounts, db.books) && WriteoffsOk(db.merchants, db.accounts) && IsBook(db.accounts, a)
    requires EnsureWriteoff(db, db.accounts[a].merchant, env.newAccount).Ok?
    ensures var (db1, w) := EnsureWriteoff(db, db.accounts[a].merchant, env.newAccount).value;
            && w != "" && w != a
            && w in db1.accounts && !db1.accounts[w].bookEnabled && w in db1.books && db1.books[w] == []
            && a in db1.accounts && db1.accounts[a] == db.accounts[a] && a in db1.books && db1.books[a] == db.books[a]
  {
    var m := db.accounts[a].merchant;
    assert WriteoffOk(db.accounts, m, db.merchants[m]);
    if db.merchants[m] != "" {
      assert AccountOk(db.accounts[db.merchants[m]], db.books[db.merchants[m]]);
    }
  }

  /** The account is still in order after its sweep. */
  lemma {:induction false} SweptAccountOk(db: Db, a: AccountNo, env: Env)
    requires AccountsOk(db.accounts, db.books) && WriteoffsOk(db.merchants, db.accounts)
    requires IsBook(db.accounts, a) && Sweep(db, a, env).Ok?
    ensures var db1 := Sweep(db, a, env).value;
            a in db1.accounts && a in db1.books && AccountOk(db1.accounts[a], db1.books[a])
  {
    assert AccountOk(db.accounts[a], db.books[a]);
    if Expired(db.books[a], env.today) != [] {
      var (db1, w) := EnsureWriteoff(db, db.accounts[a].merchant, env.newAccount).value;
      WriteoffReady(db, a, env);
      WriteOffTables(db1, a, w, env.writeoffTxn, env.today);
      SweepPostingOk(db.accounts[a], db.books[a], env.today);
    }
  }

  /** A single part moves the book of its date and no other. */
  lemma {:induction false} OneBookMoves(bs: seq<Book>, date: Date, amount: int)
    requires Sorted(bs)
    ensures forall d: Date ::
      BalanceAt(ApplyParts(bs, [Part(date, amount)]), d) == BalanceAt(bs, d) + (if d == date then amount else 0)
  {
    forall d: Date
      ensures BalanceAt(ApplyParts(bs, [Part(date, amount)]), d)
           == BalanceAt(bs, d) + (if d == date then amount else 0)
    {
      ApplyBalance(bs, [Part(date, amount)], d);
      SumOne(AmountOn(d), Part(date, amount));
    }
  }

  // ---------- parts of a transfer's credit ----------

  predicate IsDebit(c: BookChange) {
    c.delta < 0
  }

  /** Turn the debits among the book changes into credit parts. */
  method PlanTransfer(trace: seq<BookChange>) returns (parts: seq<Part>, sum: int)
    ensures parts == TraceParts(Filter(IsDebit, trace)) && sum == PartsTotal(parts)
  {
    parts, sum := [], 0;
    var i := 0;
    while i < |trace|
      invariant 0 <= i <= |trace| && parts == TraceParts(Filter(IsDebit, trace[..i])) && sum == PartsTotal(parts)
    {
      var change := trace[i];
      FilterNext(IsDebit, trace, i);
      i := i + 1;
      var amount := -change.delta;
      if amount <= 0 {
        continue;
      }
      SumSnoc((p: Part) => p.amount, parts, Part(change.expireAt, amount));
      TracePartsNext(Filter(IsDebit, trace[..i - 1]), change);
      parts := parts + [Part(change.expireAt, amount)];
      sum := sum + amount;
    }
    assert trace[..i] == trace;
  }

  lemma {:induction false} TracePartsNext(trace: seq<BookChange>, c: BookChange)
    ensures TraceParts(trace + [c]) == TraceParts(trace) + [Part(c.expireAt, -c.delta)]
  {
  }

  lemma {:induction false} TraceListed(log: seq<BookChange>, t: TxnNo, a: AccountNo)
    ensures forall c | c in Trace(log, t, a) :: c.delta < 0
  {
    forall c | c in Trace(log, t, a)
      ensures c.delta < 0
    {
      FilterMember(IsTrace(t, a), log, c);
    }
  }

  // ---------- the order of quota and debit ----------

  /** The debit neither reads nor writes what the quota decrease changes, so the two commute. */
  lemma {:induction false} SweepCommutes(db: Db, a: AccountNo, env: Env, o: TxnNo, amount: int)
    requires a in db.accounts && o in db.txns
    ensures var before, after := Sweep(TakeBack(db, o, amount), a, env), Sweep(db, a, env);
            && (after.Err? ==> before == after)
            && (after.Ok? ==> before == Ok(TakeBack(after.value, o, amount)) && o in after.value.txns)
  {
    var t, m := env.writeoffTxn, db.accounts[a].merchant;
    if db.accounts[a].bookEnabled && Expired(BooksOf(db, a), env.today) != [] {
      var r := EnsureWriteoff(db, m, env.newAccount);
      if r.Ok? {
        EnsureCommutes(db, m, env.newAccount, o, amount);
        TradeSame(r.value.0.txns, o, amount, m, WriteoffTradeNo(a, t));
        if t !in db.txns {
          WriteOffCommutes(r.value.0, a, r.value.1, t, env.today, o, amount);
        }
      }
    }
  }

  lemma {:induction false} EnsureCommutes(db: Db, m: MerchantNo, newNo: Option<AccountNo>, o: TxnNo, amount: int)
    requires EnsureWriteoff(db, m, newNo).Ok?
    ensures var (db1, w) := EnsureWriteoff(db, m, newNo).value;
            && EnsureWriteoff(TakeBack(db, o, amount), m, newNo) == Ok((TakeBack(db1, o, amount), w))
            && db1.txns == db.txns
  {
  }

  lemma {:induction false} TradeSame(txns: map<TxnNo, Txn>, o: TxnNo, amount: int, m: MerchantNo, tradeNo: string)
    requires o in txns
    ensures TradeTaken(txns[o := txns[o].(refundable := txns[o].refundable - amount)], m, tradeNo)
         == TradeTaken(txns, m, tradeNo)
  {
    var txns1 := txns[o := txns[o].(refundable := txns[o].refundable - amount)];
    if TradeTaken(txns, m, tradeNo) {
      var t :| t in txns && txns[t].merchant == m && txns[t].outTradeNo == tradeNo;
      assert t in txns1 && txns1[t].merchant == m && txns1[t].outTradeNo == tradeNo;
    }
    if TradeTaken(txns1, m, tradeNo) {
      var t :| t in txns1 && txns1[t].merchant == m && txns1[t].outTradeNo == tradeNo;
      assert t in txns && txns[t].merchant == m && txns[t].outTradeNo == tradeNo;
    }
  }

  lemma {:induction false} WriteOffPostsIgnoreTxns(db: Db, txns: map<TxnNo, Txn>, a: AccountNo, w: AccountNo, t: TxnNo,
                                                   today: Date)
    requires a in db.accounts && w in db.accounts
    ensures WriteOffPosts(db.(txns := txns), a, w, t, today) == WriteOffPosts(db, a, w, t, today).(txns := txns)
  {
    var total, parts := Total(Expired(BooksOf(db, a), today)), SweepParts(BooksOf(db, a), today);
    PostIgnoresTxns(db, txns, t, a, -total, parts, today);
    var db1 := Post(db, t, a, -total, parts, today);
    PostIgnoresTxns(db1, txns, t, w, total, PlainParts(db1.accounts[w], total, None), today);
  }

  /** Inserting the row first and posting then is the write-off. */
  lemma {:induction false} EnteredWriteOff(db: Db, db1: Db, db2: Db, a: AccountNo, w: AccountNo, t: TxnNo, today: Date)
    requires a in db.accounts && w in db.accounts && w in db1.accounts
    requires var total := Total(Expired(BooksOf(db, a), today));
             var row := WriteoffRow(db, a, w, t, total);
             && db1 == Post(db.(txns := db.txns[t := row]), t, a, -total, SweepParts(BooksOf(db, a), today), today)
             && db2 == Post(db1, t, w, total, PlainParts(db1.accounts[w], total, None), today)
    ensures db2 == WriteOff(db, a, w, t, today)
  {
    var row := WriteoffRow(db, a, w, t, Total(Expired(BooksOf(db, a), today)));
    WriteOffPostsIgnoreTxns(db, db.txns[t := row], a, w, t, today);
  }

  lemma {:induction false} WriteOffCommutes(db: Db, a: AccountNo, w: AccountNo, t: TxnNo, today: Date, o: TxnNo,
                                            amount: int)
    requires a in db.accounts && w in db.accounts && o in db.txns && t !in db.txns
    ensures WriteOff(TakeBack(db, o, amount), a, w, t, today) == TakeBack(WriteOff(db, a, w, t, today), o, amount)
  {
    var row := WriteoffRow(db, a, w, t, Total(Expired(BooksOf(db, a), today)));
    var y := db.txns[o].(refundable := db.txns[o].refundable - amount);
    var back := db.(txns := db.txns[o := y]);
    assert back.txns[t := row] == db.txns[t := row][o := y];
    WriteOffPostsIgnoreTxns(db, back.txns, a, w, t, today);
    Assemble(WriteOffPosts(db, a, w, t, today), WriteOff(db, a, w, t, today), WriteOff(back, a, w, t, today),
             db.txns[t := row], o, y, amount);
  }

  lemma {:induction false} Assemble(posted: Db, plain: Db, back: Db, txns: map<TxnNo, Txn>, o: TxnNo, y: Txn,
                                    amount: int)
    requires o in txns && y == txns[o].(refundable := txns[o].refundable - amount)
    requires plain == posted.(txns := txns) && back == posted.(txns := txns[o := y])
    ensures back == TakeBack(plain, o, amount)
  {
  }

  lemma {:induction false} DebitCommutes(db: Db, t: TxnNo, a: AccountNo, amount: int, env: Env, o: TxnNo)
    requires o in db.txns
    ensures var before, after := Debit(TakeBack(db, o, amount), t, a, amount, env), Debit(db, t, a, amount, env);
            && (after.Err? ==> before == after)
            && (after.Ok? ==> before == Ok(TakeBack(after.value, o, amount)))
  {
    if a in db.accounts {
      SweepCommutes(db, a, env, o, amount);
      if Sweep(db, a, env).Ok? && amount > 0 {
        DebitSweptCommutes(Sweep(db, a, env).value, t, a, amount, env.today, o);
      }
    }
  }

  lemma {:induction false} DebitSweptCommutes(db: Db, t: TxnNo, a: AccountNo, amount: int, today: Date, o: TxnNo)
    requires o in db.txns && amount > 0
    ensures var before := DebitSwept(TakeBack(db, o, amount), t, a, amount, today);
            var after := DebitSwept(db, t, a, amount, today);
            && (after.Err? ==> before == after)
            && (after.Ok? ==> before == Ok(TakeBack(after.value, o, amount)))
  {
  }

  class Repository {
    var merchants: map<MerchantNo, AccountNo>
    var webhooks: set<MerchantNo>
    var accounts: map<AccountNo, Account>
    var books: map<AccountNo, seq<Book>>
    var txns: map<TxnNo, Txn>
    var accountLog: seq<AccountChange>
    var bookLog: seq<BookChange>
    var outbox: seq<OutboxEvent>

    function Snapshot(): Db
      reads this
    {
      Db(merchants, webhooks, accounts, books, txns, accountLog, bookLog, outbox)
    }

    ghost predicate Valid()
      reads this
    {
      Inv(Snapshot())
    }

    constructor ()
      ensures Snapshot() == EMPTY && Valid()
    {
      merchants, webhooks, accounts, books, txns := map[], {}, map[], map[], map[];
      accountLog, bookLog, outbox := [], [], [];
      new;
      EmptyInv();
    }

    // ---------- statements ----------

    method InsertAccountChange(t: TxnNo, a: AccountNo, delta: int, before: int, after: int)
      modifies this`accountLog
      ensures accountLog == old(accountLog) + [AccountChange(t, a, delta, before, after)]
    {
      accountLog := accountLog + [AccountChange(t, a, delta, before, after)];
    }

    method UpdateAccountBalance(a: AccountNo, balance: int)
      requires a in accounts
      modifies this`accounts
      ensures accounts == old(accounts)[a := old(accounts)[a].(balance := balance)]
    {
      accounts := accounts[a := accounts[a].(balance := balance)];
    }

    method UpdateTransferTxnStatus(t: TxnNo, s: Status)
      modifies this`txns
      ensures Snapshot() == SetStatus(old(Snapshot()), t, s)
    {
      if t in txns {
        txns := txns[t := txns[t].(status := s)];
      }
    }

    /** One INSERT per planned change. */
    method InsertBookChanges(t: TxnNo, a: AccountNo, changes: seq<Planned>, day: Date)
      modifies this`bookLog
      ensures bookLog == old(bookLog) + Rows(t, a, changes, day)
    {
      var i := 0;
      while i < |changes|
        invariant 0 <= i <= |changes|
        invariant bookLog == old(bookLog) + Rows(t, a, changes, day)[..i]
      {
        bookLog := bookLog + [RowOfChange(t, a, changes[i], day)];
        i := i + 1;
      }
    }

    /** Upsert every planned book and compare the balance the database reports with the plan. */
    method UpsertPlanned(a: AccountNo, changes: seq<Planned>) returns (ok: bool)
      requires a in books && Sorted(books[a]) && PlannedOn(changes, books[a])
      requires forall c | c in changes :: c.delta > 0
      modifies this`books
      ensures ok <==> DistinctDates(PartsOf(changes))
      ensures ok ==> books == old(books)[a := ApplyParts(old(books)[a], PartsOf(changes))]
    {
      ghost var bs := books[a];
      ghost var parts := PartsOf(changes);
      PositiveParts(changes);
      var i := 0;
      while i < |changes|
        invariant 0 <= i <= |changes|
        invariant books == old(books)[a := ApplyParts(bs, parts[..i])]
        invariant DistinctUpTo(parts, i)
      {
        var c := changes[i];
        books := books[a := Upsert(books[a], c.expireAt, c.delta)];
        UpsertCheck(bs, parts, i);
        DistinctNext(parts, i);
        assert c in changes;
        if BalanceAt(books[a], c.expireAt) != c.after {
          return false;
        }
        i := i + 1;
      }
      assert parts[..i] == parts;
      return true;
    }

    /** One UPDATE for all planned books, then the comparison; a debit's plan always holds. */
    method UpdatePlanned(a: AccountNo, changes: seq<Planned>) returns (ok: bool)
      requires a in books && Sorted(books[a]) && PlannedOn(changes, books[a]) && PartsSorted(PartsOf(changes))
      requires forall p | p in PartsOf(changes) :: Has(books[a], p.expireAt)
      modifies this`books
      ensures ok && books == old(books)[a := ApplyParts(old(books)[a], PartsOf(changes))]
    {
      ghost var bs := books[a];
      UpdateIsApply(bs, PartsOf(changes));
      books := books[a := UpdateExisting(books[a], PartsOf(changes))];
      var i := 0;
      while i < |changes|
        invariant 0 <= i <= |changes| && books == old(books)[a := ApplyParts(bs, PartsOf(changes))]
      {
        UpdatedAsPlanned(bs, changes, i);
        if BalanceAt(books[a], changes[i].expireAt) != changes[i].after {
          return false;
        }
        i := i + 1;
      }
      return true;
    }

    /** INSERT INTO txn: the table's constraints decide. */
    method CreateTransferTxn(t: TxnNo, x: Txn) returns (err: Option<Error>)
      modifies this`txns
      ensures match InsertTxn(old(Snapshot()), t, x)
              case Ok(db1) => err == None && Snapshot() == db1
              case Err(e) => err == Some(e) && Snapshot() == old(Snapshot())
      ensures old(TradesUnique(txns)) ==> TradesUnique(txns)
      ensures old(Valid()) && PreparedOk(accounts, old(txns), x) ==> Valid()
    {
      ghost var db := Snapshot();
      if TradesUnique(txns) && InsertTxn(db, t, x).Ok? {
        TradesInsert(txns, t, x);
      }
      if Valid() && PreparedOk(accounts, txns, x) && InsertTxn(db, t, x).Ok? {
        InsertPrepared(db, t, x);
      }
      if x.amount <= 0 || x.refundable < 0 || (x.biz == Transfer) == (x.scene == NoScene) {
        return Some(Infrastructure);
      }
      if t in txns || TradeTaken(txns, x.merchant, x.outTradeNo) {
        return Some(DuplicateOutTradeNo);
      }
      txns := txns[t := x];
      return None;
    }

    // ---------- accounts ----------

    method CreateAccount(no: AccountNo, a: Account) returns (err: Option<Error>)
      modifies this`accounts, this`books
      ensures match Ledger.CreateAccount(old(Snapshot()), no, a)
              case Ok(db1) => err == None && Snapshot() == db1
              case Err(e) => err == Some(e) && Snapshot() == old(Snapshot())
    {
      if no == "" {
        return Some(Infrastructure);
      }
      if no in accounts {
        return Some(AccountNoExists);
      }
      accounts := accounts[no := a.(balance := 0)];
      books := books[no := []];
      if a.bookEnabled {
        books := books[no := Upsert(books[no], NO_EXPIRE, 0)];
        assert books[no] == [Book(NO_EXPIRE, 0)];
      }
      assert books == old(books)[no := books[no]];
      return None;
    }

    method GetAvailableBalance(a: AccountNo, today: Date) returns (r: Option<int>)
      ensures r == if a in accounts then Some(AvailableBalance(Snapshot(), a, today)) else None
      ensures Valid() && ClockInRange(today) && a in accounts ==> r.Some? && LeftBySweep(Snapshot(), a, today, r.value)
    {
      if Valid() && ClockInRange(today) && a in accounts {
        AvailableIsLeft(Snapshot(), a, today);
      }
      if a !in accounts {
        return None;
      }
      if !accounts[a].bookEnabled {
        return Some(accounts[a].balance);
      }
      return Some(AvailableTotal(if a in books then books[a] else [], today));
    }

    method EnsureMerchantWriteoffAccount(m: MerchantNo, newNo: Option<AccountNo>)
      returns (w: AccountNo, err: Option<Error>)
      modifies this`accounts, this`books, this`merchants
      ensures match EnsureWriteoff(old(Snapshot()), m, newNo)
              case Ok((db1, no)) => err == None && w == no && w in accounts && Snapshot() == db1
              case Err(e) => err == Some(e)
    {
      w := "";
      if m !in merchants {
        return w, Some(InvalidMerchantNo);
      }
      w := merchants[m];
      if w == "" {
        if newNo.None? {
          return w, Some(CodeAllocatorUnavailable);
        }
        w := newNo.value;
        err := CreateAccount(w, WriteoffAccount(m));
        if err.Some? {
          return w, err;
        }
        merchants := merchants[m := w];
      }
      if w !in accounts {
        return w, Some(AccountResolveFailed);
      }
      return w, None;
    }

    // ---------- credit ----------

    /** Write a credit whose book changes have been planned; false if the books disagree. */
    method WriteCredit(t: TxnNo, a: AccountNo, credit: Account, amount: int, planned: seq<Planned>, day: Date)
      returns (ok: bool)
      requires a in accounts && credit == accounts[a] && a in books && Sorted(books[a])
      requires PlannedOn(planned, books[a]) && forall c | c in planned :: c.delta > 0
      modifies this`accounts, this`books, this`accountLog, this`bookLog
      ensures ok <==> DistinctDates(PartsOf(planned))
      ensures ok ==> Snapshot() == Post(old(Snapshot()), t, a, amount, PartsOf(planned), day)
    {
      ghost var db := Snapshot();
      InsertBookChanges(t, a, planned, day);
      InsertAccountChange(t, a, amount, credit.balance, credit.balance + amount);
      ok := UpsertPlanned(a, planned);
      if ok {
        UpdateAccountBalance(a, credit.balance + amount);
        IsPost(db, Snapshot(), t, a, amount, planned, day);
      }
    }

    /** Credit one book, or the plain balance, of an account whose row has been read. */
    method CreditWithAccount(t: TxnNo, a: AccountNo, credit: Account, amount: int, expireAt: Option<Date>, day: Date)
      returns (err: Option<Error>)
      requires a in accounts && credit == accounts[a] && a in books && Sorted(books[a])
      modifies this`accounts, this`books, this`accountLog, this`bookLog
      ensures if a == "" || amount <= 0 then err == Some(AccountResolveFailed)
              else
                && err == None
                && Snapshot() == Post(old(Snapshot()), t, a, amount, PlainParts(credit, amount, expireAt), day)
      ensures err == None && credit.bookEnabled ==>
                && a in books
                && forall d: Date ::
                     BalanceAt(books[a], d) == BalanceAt(old(books)[a], d)
                       + (if expireAt == Some(d) || (expireAt == None && d == NO_EXPIRE) then amount else 0)
    {
      if a == "" || amount <= 0 {
        return Some(AccountResolveFailed);
      }
      if credit.bookEnabled {
        var date := if expireAt.Some? then expireAt.value else NO_EXPIRE;
        var bookBefore := BalanceAt(books[a], date);
        var change := Planned(date, amount, bookBefore, bookBefore + amount);
        assert PartsOf([change]) == PlainParts(credit, amount, expireAt);
        OneBookMoves(books[a], date, amount);
        var ok := WriteCredit(t, a, credit, amount, [change], day);
        if !ok {
          return Some(AccountResolveFailed);
        }
        return None;
      }
      InsertAccountChange(t, a, amount, credit.balance, credit.balance + amount);
      UpdateAccountBalance(a, credit.balance + amount);
      assert books == books[a := books[a]];
      return None;
    }

    /** Credit an account by a list of parts. */
    method ApplyBookCreditParts(t: TxnNo, a: AccountNo, credit: Account, amount: int, parts: seq<Part>, day: Date,
                                traceErr: Error)
      returns (err: Option<Error>)
      requires a in accounts && credit == accounts[a] && a in books && Sorted(books[a])
      modifies this`accounts, this`books, this`accountLog, this`bookLog
      ensures match CreditByParts(old(Snapshot()), t, a, amount, parts, day, traceErr)
              case Ok(db1) => err == None && Snapshot() == db1
              case Err(e) => err == Some(e)
    {
      if amount <= 0 || a == "" {
        return Some(AccountResolveFailed);
      }
      if !credit.bookEnabled || |parts| == 0 {
        return Some(traceErr);
      }
      var planned, sum, positive := PlanCredit(books[a], parts);
      if !positive || sum != amount {
        return Some(traceErr);
      }
      var ok := WriteCredit(t, a, credit, amount, planned, day);
      if !ok {
        return Some(traceErr);
      }
      return None;
    }

    // ---------- debit ----------

    /** Write a debit whose book changes have been planned. */
    method WriteDebit(t: TxnNo, a: AccountNo, debit: Account, amount: int, changes: seq<Planned>, day: Date)
      returns (ok: bool)
      requires a in accounts && debit == accounts[a] && a in books && Sorted(books[a])
      requires PlannedOn(changes, books[a]) && PartsSorted(PartsOf(changes))
      requires forall p | p in PartsOf(changes) :: Has(books[a], p.expireAt)
      modifies this`accounts, this`books, this`accountLog, this`bookLog
      ensures ok && Snapshot() == Post(old(Snapshot()), t, a, -amount, PartsOf(changes), day)
    {
      ghost var db := Snapshot();
      InsertBookChanges(t, a, changes, day);
      InsertAccountChange(t, a, -amount, debit.balance, debit.balance - amount);
      ok := UpdatePlanned(a, changes);
      if !ok {
        return false;
      }
      UpdateAccountBalance(a, debit.balance - amount);
      IsPost(db, Snapshot(), t, a, -amount, changes, day);
      return true;
    }

    /** Enter a planned write-off of `total` from `a` to `w` as transaction `t`. */
    method EnterWriteOff(t: TxnNo, a: AccountNo, debit: Account, w: AccountNo, writeoff: Account, total: int,
                         changes: seq<Planned>, today: Date)
      returns (err: Option<Error>)
      requires a in accounts && debit == accounts[a] && a in books && Sorted(books[a])
      requires PlannedOn(changes, books[a]) && PartsSorted(PartsOf(changes))
      requires PartsOf(changes) == SweepParts(books[a], today)
      requires (forall p | p in PartsOf(changes) :: Has(books[a], p.expireAt))
      requires total == Total(Expired(books[a], today)) > 0
      requires w in accounts && writeoff == accounts[w] && w in books && books[w] == [] && !writeoff.bookEnabled
      requires w != "" && w != a
      modifies this
      ensures if t in old(txns) || TradeTaken(old(txns), debit.merchant, WriteoffTradeNo(a, t))
              then err == Some(Infrastructure)
              else err == None && Snapshot() == WriteOff(old(Snapshot()), a, w, t, today)
    {
      ghost var db := Snapshot();
      var row := Txn(debit.merchant, WriteoffTradeNo(a, t), Transfer, ExpireWriteoff, a, w, Option.None, total,
                     RecvSuccess, Option.None, 0);
      if t in txns || TradeTaken(txns, row.merchant, row.outTradeNo) {
        return Some(Infrastructure);
      }
      txns := txns[t := row];
      var ok := WriteDebit(t, a, debit, total, changes, today);
      if !ok {
        return Some(AccountResolveFailed);
      }
      ghost var db1 := Snapshot();
      err := CreditWithAccount(t, w, writeoff, total, Option.None, today);
      EnteredWriteOff(db, db1, Snapshot(), a, w, t, today);
    }

    /** Write off the expired books of `a` against the account `w`. */
    method WriteOffBooks(a: AccountNo, debit: Account, w: AccountNo, writeoff: Account, expired: seq<Book>, env: Env)
      returns (err: Option<Error>)
      requires a in accounts && debit == accounts[a] && a in books && Sorted(books[a]) && DatedNonNegative(books[a])
      requires w in accounts && writeoff == accounts[w] && w in books && books[w] == [] && !writeoff.bookEnabled
      requires w != "" && w != a
      requires expired == Expired(books[a], env.today) && expired != []
      modifies this
      ensures var t := env.writeoffTxn;
              if t in old(txns) || TradeTaken(old(txns), debit.merchant, WriteoffTradeNo(a, t))
              then err == Some(Infrastructure)
              else err == None && Snapshot() == WriteOff(old(Snapshot()), a, w, env.writeoffTxn, env.today)
    {
      EmptiedIsSweep(books[a], env.today);
      FilterAll(HoldsMoney, expired);
      var total, changes := PlanSweep(expired);
      if total <= 0 {
        return None;
      }
      err := EnterWriteOff(env.writeoffTxn, a, debit, w, writeoff, total, changes, env.today);
    }

    method SweepExpiredBooks(a: AccountNo, debit: Account, env: Env) returns (err: Option<Error>)
      requires AccountsOk(accounts, books) && WriteoffsOk(merchants, accounts)
      requires a in accounts && debit == accounts[a]
      modifies this
      ensures match Sweep(old(Snapshot()), a, env)
              case Ok(db1) => err == None && Snapshot() == db1
              case Err(e) => err == Some(e)
    {
      if !debit.bookEnabled {
        return None;
      }
      assert AccountOk(accounts[a], books[a]);
      var expired := Expired(books[a], env.today);
      if |expired| == 0 {
        return None;
      }
      ghost var db := Snapshot();
      var w;
      w, err := EnsureMerchantWriteoffAccount(debit.merchant, env.newAccount);
      if err.Some? {
        return;
      }
      WriteoffReady(db, a, env);
      err := WriteOffBooks(a, debit, w, accounts[w], expired, env);
    }

    method ApplyAccountDebit(t: TxnNo, a: AccountNo, amount: int, env: Env) returns (err: Option<Error>)
      requires AccountsOk(accounts, books) && WriteoffsOk(merchants, accounts)
      modifies this
      ensures match Debit(old(Snapshot()), t, a, amount, env)
              case Ok(db1) => err == None && Snapshot() == db1
              case Err(e) => err == Some(e)
    {
      if a == "" || amount <= 0 {
        return Some(AccountResolveFailed);
      }
      if a !in accounts {
        return Some(AccountResolveFailed);
      }
      ghost var db := Snapshot();
      var debit := accounts[a];
      if debit.bookEnabled {
        err := SweepExpiredBooks(a, debit, env);
        if err.Some? {
          return;
        }
        SweptAccountOk(db, a, env);
        if a !in accounts {
          return Some(AccountResolveFailed);
        }
        err := DebitBooks(t, a, accounts[a], amount, env.today);
        return;
      }
      if !CanDebit(debit, debit.balance, amount) {
        return Some(InsufficientBalance);
      }
      InsertAccountChange(t, a, -amount, debit.balance, debit.balance - amount);
      UpdateAccountBalance(a, debit.balance - amount);
      assert a in books && books == books[a := books[a]];
      return None;
    }

    /** Debit a swept book account, earliest expiry first. */
    method DebitBooks(t: TxnNo, a: AccountNo, debit: Account, amount: int, today: Date) returns (err: Option<Error>)
      requires a in accounts && debit == accounts[a] && debit.bookEnabled && a in books && AccountOk(debit, books[a])
      requires amount > 0
      modifies this`accounts, this`books, this`accountLog, this`bookLog
      ensures if !CanDebit(debit, debit.balance, amount) then err == Some(InsufficientBalance)
              else
                var listed := Available(old(books)[a], today);
                && err == None && Missing(listed, amount) == 0
                && Snapshot() == Post(old(Snapshot()), t, a, -amount, Draw(listed, amount), today)
      ensures err == None <==> (Limited(debit) ==> debit.balance - amount >= -Limit(debit))
    {
      if !CanDebit(debit, debit.balance, amount) {
        return Some(InsufficientBalance);
      }
      var listed := Available(books[a], today);
      var changes, left := DrawLoop(listed, amount);
      DrawOnBooks(books[a], today, amount);
      if left > 0 {
        return Some(InsufficientBalance);
      }
      AvailableListed(books[a], today);
      ListedBalances(changes, listed, books[a]);
      var ok := WriteDebit(t, a, debit, amount, changes, today);
      if !ok {
        return Some(InsufficientBalance);
      }
      return None;
    }

    // ---------- the two kinds of credit ----------

    method ListOriginDebitBookChanges(t: TxnNo, a: AccountNo) returns (trace: seq<BookChange>)
      ensures trace == Trace(bookLog, t, a)
    {
      trace := [];
      var i := 0;
      while i < |bookLog|
        invariant 0 <= i <= |bookLog| && trace == Trace(bookLog[..i], t, a)
      {
        var c := bookLog[i];
        assert bookLog[..i + 1] == bookLog[..i] + [c];
        FilterConcat(IsTrace(t, a), bookLog[..i], [c]);
        if c.txn == t && c.account == a && c.delta < 0 {
          trace := trace + [c];
        }
        i := i + 1;
      }
      assert bookLog[..i] == bookLog;
    }

    method GetRefundDebitStats(t: TxnNo, m: MerchantNo, o: TxnNo, a: AccountNo) returns (total: int, current: int)
      ensures (total, current) == RefundStats(Snapshot(), t, m, o, a)
    {
      total, current := 0, 0;
      var i := 0;
      while i < |accountLog|
        invariant 0 <= i <= |accountLog|
        invariant total == SumBy(DebitedAmount(txns, m, o, a), accountLog[..i])
        invariant current == SumBy(DebitedAmountOf(txns, m, o, a, t), accountLog[..i])
      {
        var e := accountLog[i];
        assert accountLog[..i + 1] == accountLog[..i] + [e];
        SumSnoc(DebitedAmount(txns, m, o, a), accountLog[..i], e);
        SumSnoc(DebitedAmountOf(txns, m, o, a, t), accountLog[..i], e);
        if e.txn in txns && IsRefundOf(txns[e.txn], m, o) && e.account == a && e.delta < 0 {
          total := total + txns[e.txn].amount;
          if e.txn == t {
            current := current + txns[e.txn].amount;
          }
        }
        i := i + 1;
      }
      assert accountLog[..i] == accountLog;
    }

    method BuildRefundBookCreditParts(t: TxnNo, o: TxnNo, m: MerchantNo, amount: int, today: Date)
      returns (parts: seq<Part>, err: Option<Error>)
      requires t in txns && txns[t].merchant == m && txns[t].amount == amount
      ensures match RefundCreditParts(Snapshot(), t, txns[t], o, today)
              case Ok(ps) => err == None && parts == ps
              case Err(e) => err == Some(e)
    {
      parts := [];
      if amount <= 0 {
        return parts, Some(AccountResolveFailed);
      }
      if o !in txns || txns[o].merchant != m {
        return parts, Some(TxnNotFound);
      }
      var origin := txns[o];
      if origin.debit == "" || origin.credit == "" {
        return parts, Some(AccountResolveFailed);
      }
      var trace := ListOriginDebitBookChanges(o, origin.debit);
      if |trace| == 0 {
        return parts, Some(RefundOriginBookTraceMissing);
      }
      var total, current := GetRefundDebitStats(t, m, o, origin.credit);
      if current <= 0 {
        return parts, Some(RefundOriginBookTraceMissing);
      }
      var priorDebited := total - current;
      if priorDebited < 0 {
        return parts, Some(RefundOriginBookTraceMissing);
      }
      var left;
      parts, left := SliceLoop(trace, priorDebited, amount, today);
      if left != 0 {
        return parts, Some(RefundOriginBookTraceMissing);
      }
      return parts, None;
    }

    method ApplyTransferCredit(t: TxnNo, x: Txn, today: Date) returns (err: Option<Error>)
      requires AccountsOk(accounts, books)
      modifies this`accounts, this`books, this`accountLog, this`bookLog
      ensures match TransferCredit(old(Snapshot()), t, x, today)
              case Ok(db1) => err == None && Snapshot() == db1
              case Err(e) => err == Some(e)
    {
      if x.credit == "" || x.amount <= 0 {
        return Some(AccountResolveFailed);
      }
      if x.credit !in accounts {
        return Some(AccountResolveFailed);
      }
      var credit := accounts[x.credit];
      assert AccountOk(credit, books[x.credit]);
      if x.scene == P2P && credit.bookEnabled {
        if x.debit == "" {
          return Some(AccountResolveFailed);
        }
        var trace := ListOriginDebitBookChanges(t, x.debit);
        if |trace| != 0 {
          TraceListed(bookLog, t, x.debit);
          FilterAll(IsDebit, trace);
          var parts, sum := PlanTransfer(trace);
          if |parts| == 0 || sum != x.amount {
            return Some(AccountResolveFailed);
          }
          err := ApplyBookCreditParts(t, x.credit, credit, x.amount, parts, today, AccountResolveFailed);
          return;
        }
      }
      err := CreditWithAccount(t, x.credit, credit, x.amount, x.creditExpireAt, today);
    }

    method ApplyRefundCredit(t: TxnNo, o: TxnNo, today: Date) returns (err: Option<Error>)
      requires AccountsOk(accounts, books) && t in txns
      modifies this`accounts, this`books, this`accountLog, this`bookLog
      ensures match RefundCredit(old(Snapshot()), t, txns[t], o, today)
              case Ok(db1) => err == None && Snapshot() == db1
              case Err(e) => err == Some(e)
    {
      var a, amount := txns[t].credit, txns[t].amount;
      if a == "" || amount <= 0 {
        return Some(AccountResolveFailed);
      }
      if a in accounts && !accounts[a].bookEnabled {
        var after := accounts[a].balance + amount;
        UpdateAccountBalance(a, after);
        InsertAccountChange(t, a, amount, after - amount, after);
        assert books == books[a := books[a]];
        return None;
      }
      if a !in accounts {
        return Some(AccountResolveFailed);
      }
      assert AccountOk(accounts[a], books[a]);
      var parts;
      parts, err := BuildRefundBookCreditParts(t, o, txns[t].merchant, amount, today);
      if err.Some? {
        return;
      }
      err := ApplyBookCreditParts(t, a, accounts[a], amount, parts, today, RefundOriginBookTraceMissing);
    }

    // ---------- stages ----------

    /** UPDATE ... SET refundable_amount = refundable_amount - amount WHERE the origin allows it. */
    method DecreaseOriginRefundable(o: TxnNo, m: MerchantNo, amount: int) returns (ok: bool)
      modifies this`txns
      ensures ok == CanTakeBack(old(txns), o, m, amount)
      ensures Snapshot() == if ok then TakeBack(old(Snapshot()), o, amount) else old(Snapshot())
      ensures ok ==> o in txns && txns[o].refundable >= 0
      ensures ok && old(o in txns && QuotaKept(txns, o)) ==> Short(txns, o, amount)
    {
      ok := CanTakeBack(txns, o, m, amount);
      if ok {
        TakenFromQuota(txns, o, amount);
        txns := txns[o := txns[o].(refundable := txns[o].refundable - amount)];
      }
    }

    method InsertOutboxEvent(t: TxnNo)
      modifies this`outbox
      ensures Snapshot() == Emit(old(Snapshot()), t)
      ensures old(OneEventEach(outbox)) ==> OneEventEach(outbox)
      ensures t in txns ==> (HasEvent(outbox, t) <==> old(HasEvent(outbox, t)) || txns[t].merchant in webhooks)
      ensures forall u | u != t :: HasEvent(outbox, u) == old(HasEvent(outbox, u))
    {
      if t in txns && txns[t].merchant in webhooks && forall e | e in outbox :: e.txn != t {
        ghost var before := outbox;
        outbox := outbox + [OutboxEvent(t, txns[t].merchant, txns[t].outTradeNo)];
        assert outbox[|before|] in outbox && forall e | e in before :: e in outbox;
      }
    }

    method DebitStage(t: TxnNo, env: Env) returns (err: Option<Error>)
      requires AccountsOk(accounts, books) && WriteoffsOk(merchants, accounts) && t in txns
      modifies this
      ensures match StageInit(old(Snapshot()), t, env)
              case Ok(db1) => err == None && Snapshot() == db1
              case Err(e) => err == Some(e)
    {
      ghost var db := Snapshot();
      var x := txns[t];
      match x.biz {
        case Transfer =>
          if x.debit == "" {
            return Some(AccountResolveFailed);
          }
        case Refund =>
          if x.refundOf.None? {
            return Some(TxnStatusInvalid);
          }
          var ok := DecreaseOriginRefundable(x.refundOf.value, x.merchant, x.amount);
          if !ok {
            return Some(ClassifyMiss(Snapshot(), x.refundOf.value, x.merchant));
          }
          if x.debit == "" || x.credit == "" {
            return Some(AccountResolveFailed);
          }
          DebitCommutes(db, t, x.debit, x.amount, env, x.refundOf.value);
      }
      err := ApplyAccountDebit(t, x.debit, x.amount, env);
      if err.Some? {
        return;
      }
      UpdateTransferTxnStatus(t, PaySuccess);
    }

    method CreditStage(t: TxnNo, env: Env) returns (err: Option<Error>)
      requires AccountsOk(accounts, books) && t in txns
      modifies this
      ensures match StagePay(old(Snapshot()), t, env)
              case Ok(db1) => err == None && Snapshot() == db1
              case Err(e) => err == Some(e)
    {
      var x := txns[t];
      if x.credit == "" {
        return Some(AccountResolveFailed);
      }
      match x.biz {
        case Transfer =>
          err := ApplyTransferCredit(t, x, env.today);
        case Refund =>
          if x.refundOf.None? {
            return Some(TxnStatusInvalid);
          }
          err := ApplyRefundCredit(t, x.refundOf.value, env.today);
      }
      if err.Some? {
        return;
      }
      UpdateTransferTxnStatus(t, RecvSuccess);
      InsertOutboxEvent(t);
    }

    method Rollback(db: Db)
      modifies this
      ensures Snapshot() == db
    {
      merchants, webhooks, accounts, books, txns := db.merchants, db.webhooks, db.accounts, db.books, db.txns;
      accountLog, bookLog, outbox := db.accountLog, db.bookLog, db.outbox;
    }

    /** The stage inside its database transaction. */
    method StageInTransaction(t: TxnNo, expected: Status, env: Env)
      returns (applied: bool, current: Option<Status>, err: Option<Error>)
      requires AccountsOk(accounts, books) && WriteoffsOk(merchants, accounts)
      modifies this
      ensures match Stage(old(Snapshot()), t, expected, env)
              case Applied(db1) =>
                && applied && err == None && Snapshot() == db1
                && current == Some(if expected == Init then PaySuccess else RecvSuccess)
              case Skipped(s) => !applied && err == None && Snapshot() == old(Snapshot()) && current == Some(s)
              case Rejected(e) => !applied && err == Some(e) && Snapshot() == old(Snapshot())
    {
      var begin := Snapshot();
      if t !in txns {
        return false, Option.None, Some(TxnNotFound);
      }
      current := Some(txns[t].status);
      if txns[t].status != expected {
        return false, current, Option.None;
      }
      match expected {
        case Init =>
          err := DebitStage(t, env);
        case PaySuccess =>
          err := CreditStage(t, env);
        case _ =>
          err := Some(TxnStatusInvalid);
      }
      if err.Some? {
        Rollback(begin);
        return false, current, err;
      }
      current := Some(if expected == Init then PaySuccess else RecvSuccess);
      return true, current, Option.None;
    }

    /** One database transaction: the whole stage is committed, or the tables are as before; either
        way the ledger invariant holds. */
    method ApplyTxnStage(t: TxnNo, expected: Status, env: Env)
      returns (applied: bool, current: Option<Status>, err: Option<Error>)
      requires Valid() && ClockInRange(env.today)
      modifies this
      ensures Valid()
      ensures match Stage(old(Snapshot()), t, expected, env)
              case Applied(db1) =>
                && applied && err == None && Snapshot() == db1
                && current == Some(if expected == Init then PaySuccess else RecvSuccess)
              case Skipped(s) => !applied && err == None && Snapshot() == old(Snapshot()) && current == Some(s)
              case Rejected(e) => !applied && err == Some(e) && Snapshot() == old(Snapshot())
    {
      StageKeepsInv(Snapshot(), t, expected, env);
      applied, current, err := StageInTransaction(t, expected, env);
    }

    method TransitionTransferTxnStatus(t: TxnNo, from: Status, to: Status) returns (changed: bool)
      modifies this`txns
      ensures Snapshot() == Transition(old(Snapshot()), t, from, to)
      ensures changed == (t in old(txns) && old(txns)[t].status == from)
      ensures forall u | u in old(txns) && old(txns)[u].status != from :: u in txns && txns[u] == old(txns)[u]
      ensures old(Valid()) && from == Init && to == Failed ==> Valid()
    {
      if Valid() && from == Init && to == Failed && t in txns && txns[t].status == Init {
        FailKeepsInv(Snapshot(), t);
      }
      changed := t in txns && txns[t].status == from;
      if changed {
        txns := txns[t := txns[t].(status := to)];
      }
    }
  }
}
