/** The debit of a transaction and its credit each keep the whole invariant. */
module Effects {
  import opened Domain
  import opened Collections
  import opened Books
  import opened Refunds
  import opened Ledger
  import opened Invariants
  import opened Postings
  import opened Frames

  // ---------- a trace is born ----------

  lemma {:induction false} PartChangesConsumed(t: TxnNo, a: AccountNo, bs: seq<Book>, parts: seq<Part>, day: Date)
    requires forall p | p in parts :: p.amount < 0
    ensures ConsumedTotal(PartChanges(t, a, bs, parts, day)) == -PartsTotal(parts)
    decreases |parts|
  {
    if parts == [] {
    } else {
      var n := |parts| - 1;
      var changes := PartChanges(t, a, bs, parts, day);
      PartChangesConsumed(t, a, bs, parts[..n], day);
      assert changes[..n] == PartChanges(t, a, bs, parts[..n], day);
      assert changes == changes[..n] + [changes[n]] && parts == parts[..n] + [parts[n]];
      assert parts[n] in parts;
      SumSnoc(Consumed, changes[..n], changes[n]);
      SumSnoc((p: Part) => p.amount, parts[..n], parts[n]);
    }
  }

  /** What every row of a posting's book log says. */
  lemma {:induction false} PartChangesRows(t: TxnNo, a: AccountNo, bs: seq<Book>, parts: seq<Part>, day: Date)
    ensures forall c | c in PartChanges(t, a, bs, parts, day) ::
      c.txn == t && c.account == a && c.createdOn == day && Part(c.expireAt, c.delta) in parts
  {
  }

  lemma {:induction false} ChangesAreTrace(t: TxnNo, a: AccountNo, bs: seq<Book>, parts: seq<Part>, day: Date,
                                           amount: int)
    requires PartsSorted(parts) && PartsTotal(parts) == -amount && ClockInRange(day)
    requires forall p | p in parts :: p.amount < 0
    ensures GoodTrace(PartChanges(t, a, bs, parts, day), amount)
  {
    PartChangesRows(t, a, bs, parts, day);
    PartChangesConsumed(t, a, bs, parts, day);
  }

  lemma {:induction false} TraceBorn(log: seq<BookChange>, t: TxnNo, a: AccountNo, changes: seq<BookChange>)
    requires forall c | c in changes :: c.txn == t && c.account == a && c.delta < 0
    requires forall c | c in log :: c.txn != t
    ensures Trace(log + changes, t, a) == changes
  {
    FilterConcat(IsTrace(t, a), log, changes);
    FilterNone(IsTrace(t, a), log);
    FilterAll(IsTrace(t, a), changes);
  }

  // ---------- debit ----------

  /** The transaction table after the debit of `t`: a refund also uses up its origin's quota. */
  function AfterDebit(txns: map<TxnNo, Txn>, t: TxnNo): map<TxnNo, Txn>
    requires t in txns
  {
    var x := txns[t];
    var base := if x.biz == Refund && x.refundOf.Some? && x.refundOf.value in txns
                then var o := x.refundOf.value; txns[o := txns[o].(refundable := txns[o].refundable - x.amount)]
                else txns;
    base[t := x.(status := PaySuccess)]
  }

  function DebitTxn(db: Db, t: TxnNo, parts: seq<Part>, day: Date): Db
    requires t in db.txns && db.txns[t].debit in db.accounts
  {
    Post(db, t, db.txns[t].debit, -db.txns[t].amount, parts, day).(txns := AfterDebit(db.txns, t))
  }

  ghost predicate DebitReady(accounts: map<AccountNo, Account>, txns: map<TxnNo, Txn>, t: TxnNo) {
    && t in txns && txns[t].status == Init
    && var x := txns[t];
    && Resolves(accounts, x.merchant, x.debit, x.credit)
    && (x.biz == Refund ==> x.refundOf.Some? && CanTakeBack(txns, x.refundOf.value, x.merchant, x.amount))
  }

  lemma {:induction false} AfterDebitGrows(accounts: map<AccountNo, Account>, txns: map<TxnNo, Txn>, t: TxnNo)
    requires TxnsOk(accounts, txns) && DebitReady(accounts, txns, t)
    ensures var txns1 := AfterDebit(txns, t);
            && txns1.Keys == txns.Keys && Grows(txns, txns1) && NoFall(txns, txns1)
            && (forall u | u in txns :: txns1[u].status == if u == t then PaySuccess else txns[u].status)
            && (forall u | u in txns :: txns1[u].refundable >= 0)
  {
    assert TxnOk(accounts, txns, txns[t]);
    forall u | u in txns
      ensures AfterDebit(txns, t)[u].refundable >= 0
    {
      assert TxnOk(accounts, txns, txns[u]);
    }
  }

  lemma {:induction false} DebitTxns(accounts: map<AccountNo, Account>, accounts1: map<AccountNo, Account>,
                                     txns: map<TxnNo, Txn>, t: TxnNo)
    requires TxnsOk(accounts, txns) && TradesUnique(txns) && DebitReady(accounts, txns, t)
    requires SameAccounts(accounts, accounts1)
    ensures TxnsOk(accounts1, AfterDebit(txns, t)) && TradesUnique(AfterDebit(txns, t))
  {
    AfterDebitGrows(accounts, txns, t);
    forall u | u in txns && Debited(AfterDebit(txns, t)[u].status)
      ensures txns[u].debit != ""
    {
      assert TxnOk(accounts, txns, txns[u]);
    }
    TxnsFrame(accounts, accounts1, txns, AfterDebit(txns, t));
    TradesFrame(txns, AfterDebit(txns, t));
  }

  lemma {:induction false} DebitJournal(accounts: map<AccountNo, Account>, txns: map<TxnNo, Txn>, t: TxnNo,
                                        log: seq<AccountChange>, e: AccountChange)
    requires TxnsOk(accounts, txns) && DebitReady(accounts, txns, t) && JournalOk(txns, log)
    requires e.txn == t && e.account == txns[t].debit && e.delta == -txns[t].amount
    ensures JournalOk(AfterDebit(txns, t), log + [e])
  {
    var txns1 := AfterDebit(txns, t);
    AfterDebitGrows(accounts, txns, t);
    forall u: TxnNo
      ensures Expected(txns1, u) == Expected(txns, u) + (if u == t then [(e.account, e.delta)] else [])
    {
      if u in txns {
        assert SameTerms(txns[u], txns1[u]);
      }
    }
    JournalSnoc(txns, txns1, log, e);
  }

  lemma {:induction false} NoEntriesYet(txns: map<TxnNo, Txn>, bookLog: seq<BookChange>, t: TxnNo)
    requires BookJournalOk(txns, bookLog)
    requires t in txns ==> !Debited(txns[t].status)
    ensures forall c | c in bookLog :: c.txn != t
  {
    forall c | c in bookLog
      ensures c.txn != t
    {
      assert BookEntryOk(txns, c);
    }
  }

  lemma {:induction false} DebitBookLog(accounts: map<AccountNo, Account>, accounts1: map<AccountNo, Account>,
                                        txns: map<TxnNo, Txn>, t: TxnNo,
                     bookLog: seq<BookChange>, bs: seq<Book>, parts: seq<Part>, day: Date)
    requires TxnsOk(accounts, txns) && DebitReady(accounts, txns, t) && SameAccounts(accounts, accounts1)
    requires BookJournalOk(txns, bookLog) && TracesOk(accounts, txns, bookLog) && ProfilesOk(accounts, txns, bookLog)
    requires ClockInRange(day) && PartsSorted(parts) && (forall p | p in parts :: p.amount < 0)
    requires IsBook(accounts, txns[t].debit) ==> PartsTotal(parts) == -txns[t].amount
    ensures var bookLog1 := bookLog + PartChanges(t, txns[t].debit, bs, parts, day);
            var txns1 := AfterDebit(txns, t);
            && BookJournalOk(txns1, bookLog1)
            && TracesOk(accounts1, txns1, bookLog1) && ProfilesOk(accounts1, txns1, bookLog1)
  {
    var x, txns1 := txns[t], AfterDebit(txns, t);
    var changes := PartChanges(t, x.debit, bs, parts, day);
    AfterDebitGrows(accounts, txns, t);
    PartChangesRows(t, x.debit, bs, parts, day);
    BookJournalFrame(txns, txns1, bookLog, changes);
    NoEntriesYet(txns, bookLog, t);
    if IsBook(accounts, x.debit) {
      ChangesAreTrace(t, x.debit, bs, parts, day, x.amount);
      TraceBorn(bookLog, t, x.debit, changes);
    }
    PartiesKnown(accounts, txns);
    TracesFrame(accounts, accounts1, txns, txns1, bookLog, changes, t);
    ProfilesFrame(accounts, accounts1, txns, txns1, bookLog, changes, t);
  }

  lemma {:induction false} PartiesKnown(accounts: map<AccountNo, Account>, txns: map<TxnNo, Txn>)
    requires TxnsOk(accounts, txns)
    ensures forall u | u in txns && Debited(txns[u].status) :: txns[u].debit in accounts && txns[u].credit in accounts
  {
    forall u | u in txns && Debited(txns[u].status)
      ensures txns[u].debit in accounts && txns[u].credit in accounts
    {
      assert TxnOk(accounts, txns, txns[u]);
    }
  }

  /** A sum over the transaction table changes by what the debited row contributes; the origin's
      row contributes nothing to it, before or after. */
  lemma {:induction false} DebitSum(accounts: map<AccountNo, Account>, txns: map<TxnNo, Txn>, t: TxnNo, f: Txn -> int)
    requires DebitReady(accounts, txns, t)
    requires txns[t].biz == Refund ==>
      var y := txns[txns[t].refundOf.value]; f(y) == f(y.(refundable := y.refundable - txns[t].amount))
    ensures var x := txns[t];
            SumMap(f, AfterDebit(txns, t)) == SumMap(f, txns) + f(x.(status := PaySuccess)) - f(x)
  {
    var x := txns[t];
    if x.biz == Refund {
      var o := x.refundOf.value;
      var y := txns[o].(refundable := txns[o].refundable - x.amount);
      SumMapUpdate(f, txns, o, y);
      SumMapUpdate(f, txns[o := y], t, x.(status := PaySuccess));
    } else {
      SumMapUpdate(f, txns, t, x.(status := PaySuccess));
    }
  }

  /** The debit of a refund takes from its origin's refundable amount what it adds to the refunds. */
  lemma {:induction false} DebitRefunded(accounts: map<AccountNo, Account>, txns: map<TxnNo, Txn>, t: TxnNo, o: TxnNo)
    requires DebitReady(accounts, txns, t) && o in txns && txns[o].biz == Transfer
    ensures var x, txns1 := txns[t], AfterDebit(txns, t);
            var taken := if x.biz == Refund && x.refundOf == Some(o) then x.amount else 0;
            && Refunded(txns1, o) == Refunded(txns, o) + taken
            && txns1[o].refundable == txns[o].refundable - taken
  {
    DebitSum(accounts, txns, t, RefundedBy(o));
  }

  lemma {:induction false} DebitQuota(accounts: map<AccountNo, Account>, txns: map<TxnNo, Txn>, t: TxnNo)
    requires TxnsOk(accounts, txns) && DebitReady(accounts, txns, t) && QuotaOk(txns)
    ensures QuotaOk(AfterDebit(txns, t))
  {
    var txns1 := AfterDebit(txns, t);
    AfterDebitGrows(accounts, txns, t);
    forall o | o in txns1 && txns1[o].biz == Transfer
      ensures QuotaKept(txns1, o)
    {
      assert SameTerms(txns[o], txns1[o]) && QuotaKept(txns, o);
      DebitRefunded(accounts, txns, t, o);
    }
  }

  lemma {:induction false} DebitStats(accounts: map<AccountNo, Account>, txns: map<TxnNo, Txn>, t: TxnNo,
                                      log: seq<AccountChange>, e: AccountChange)
    requires TxnsOk(accounts, txns) && DebitReady(accounts, txns, t)
    requires StatsOk(txns, log) && (forall e | e in log :: e.txn in txns)
    requires e.txn == t && e.account == txns[t].debit && e.delta < 0
    ensures StatsOk(AfterDebit(txns, t), log + [e])
  {
    var txns1 := AfterDebit(txns, t);
    AfterDebitGrows(accounts, txns, t);
    assert TxnOk(accounts, txns, txns[t]);
    forall o | o in txns1 && txns1[o].biz == Transfer
      ensures StatsAgree(txns1, log + [e], o)
    {
      assert SameTerms(txns[o], txns1[o]) && SameTerms(txns[t], txns1[t]) && StatsAgree(txns, log, o);
      DebitRefunded(accounts, txns, t, o);
      StatsFrame(txns, txns1, txns[o].merchant, o, txns[o].credit, log);
      SumSnoc(DebitedAmount(txns1, txns[o].merchant, o, txns[o].credit), log, e);
    }
  }

  lemma {:induction false} DebitZeroSum(accounts: map<AccountNo, Account>, txns: map<TxnNo, Txn>, t: TxnNo)
    requires DebitReady(accounts, txns, t) && ZeroSum(accounts, txns)
    ensures var a := txns[t].debit;
            ZeroSum(accounts[a := accounts[a].(balance := accounts[a].balance + -txns[t].amount)], AfterDebit(txns, t))
  {
    var a, delta := txns[t].debit, -txns[t].amount;
    var accounts1 := accounts[a := accounts[a].(balance := accounts[a].balance + delta)];
    forall m: MerchantNo
      ensures Balanced(accounts1, AfterDebit(txns, t), m)
    {
      BalancePost(accounts, a, delta, m);
      DebitInFlight(accounts, txns, t, m);
      assert Balanced(accounts, txns, m);
    }
  }

  lemma {:induction false} DebitInFlight(accounts: map<AccountNo, Account>, txns: map<TxnNo, Txn>, t: TxnNo,
                                         m: MerchantNo)
    requires DebitReady(accounts, txns, t)
    ensures SumMap(InFlight(m), AfterDebit(txns, t))
         == SumMap(InFlight(m), txns) + (if txns[t].merchant == m then txns[t].amount else 0)
  {
    DebitSum(accounts, txns, t, InFlight(m));
  }

  lemma {:induction false} DebitKeepsTxnInv(accounts: map<AccountNo, Account>, txns: map<TxnNo, Txn>, t: TxnNo,
                                            log: seq<AccountChange>, e: AccountChange,
                                            bookLog: seq<BookChange>, bs: seq<Book>, parts: seq<Part>, day: Date,
                                            outbox: seq<OutboxEvent>)
    requires TxnInv(accounts, txns, log, bookLog, outbox) && DebitReady(accounts, txns, t)
    requires e.txn == t && e.account == txns[t].debit && e.delta == -txns[t].amount
    requires IsBook(accounts, txns[t].debit) ==> PartsTotal(parts) == -txns[t].amount
    requires ClockInRange(day) && PartsSorted(parts) && (forall p | p in parts :: p.amount < 0)
    ensures var a := txns[t].debit;
            var accounts1 := accounts[a := accounts[a].(balance := accounts[a].balance + -txns[t].amount)];
            TxnInv(accounts1, AfterDebit(txns, t), log + [e], bookLog + PartChanges(t, a, bs, parts, day), outbox)
  {
    var x, txns1 := txns[t], AfterDebit(txns, t);
    var accounts1 := accounts[x.debit := accounts[x.debit].(balance := accounts[x.debit].balance + -x.amount)];
    assert TxnOk(accounts, txns, x);
    assert SameAccounts(accounts, accounts1);
    DebitTxns(accounts, accounts1, txns, t);
    DebitJournal(accounts, txns, t, log, e);
    DebitBookLog(accounts, accounts1, txns, t, bookLog, bs, parts, day);
    AfterDebitGrows(accounts, txns, t);
    OutboxFrame(txns, txns1, outbox);
    DebitQuota(accounts, txns, t);
    DebitStats(accounts, txns, t, log, e);
    DebitZeroSum(accounts, txns, t);
  }

  lemma {:induction false} DebitTables(db: Db, t: TxnNo, parts: seq<Part>, day: Date)
    requires t in db.txns && db.txns[t].debit in db.accounts && db.txns[t].debit in db.books
    ensures var db1 := DebitTxn(db, t, parts, day);
            var a, delta := db.txns[t].debit, -db.txns[t].amount;
            var acc := db.accounts[a];
            && db1.merchants == db.merchants && db1.outbox == db.outbox
            && db1.accounts == db.accounts[a := acc.(balance := acc.balance + delta)]
            && db1.books == db.books[a := ApplyParts(db.books[a], parts)]
            && db1.txns == AfterDebit(db.txns, t)
            && db1.accountLog == db.accountLog + [AccountChange(t, a, delta, acc.balance, acc.balance + delta)]
            && db1.bookLog == db.bookLog + PartChanges(t, a, db.books[a], parts, day)
  {
  }

  /** Tables that a posting leads to are in order. */
  lemma {:induction false} PostedMoney(db: Db, db1: Db, t: TxnNo, a: AccountNo, delta: int, parts: seq<Part>, day: Date)
    requires MoneyOk(db) && a in db.accounts && a in db.books && PostingOk(db.accounts[a], db.books[a], delta, parts)
    requires var acc := db.accounts[a];
             && db1.merchants == db.merchants
             && db1.accounts == db.accounts[a := acc.(balance := acc.balance + delta)]
             && db1.books == db.books[a := ApplyParts(db.books[a], parts)]
             && db1.accountLog == db.accountLog + [AccountChange(t, a, delta, acc.balance, acc.balance + delta)]
             && db1.bookLog == db.bookLog + PartChanges(t, a, db.books[a], parts, day)
    ensures MoneyOk(db1)
  {
    PostMoney(db.merchants, db.accounts, db.books, db.accountLog, db.bookLog, t, a, delta, parts, day);
    MoneyFrom(db1, db1.merchants, db1.accounts, db1.books, db1.accountLog, db1.bookLog);
  }

  lemma {:induction false} DebitKeepsMoney(db: Db, t: TxnNo, parts: seq<Part>, day: Date)
    requires MoneyOk(db) && t in db.txns && db.txns[t].debit in db.accounts && db.txns[t].debit in db.books
    requires PostingOk(db.accounts[db.txns[t].debit], db.books[db.txns[t].debit], -db.txns[t].amount, parts)
    ensures MoneyOk(DebitTxn(db, t, parts, day))
  {
    DebitTables(db, t, parts, day);
    PostedMoney(db, DebitTxn(db, t, parts, day), t, db.txns[t].debit, -db.txns[t].amount, parts, day);
  }

  lemma {:induction false} DebitKeepsRecords(db: Db, t: TxnNo, parts: seq<Part>, day: Date)
    requires RecordsOk(db) && DebitReady(db.accounts, db.txns, t) && db.txns[t].debit in db.books
    requires IsBook(db.accounts, db.txns[t].debit) ==> PartsTotal(parts) == -db.txns[t].amount
    requires ClockInRange(day) && PartsSorted(parts) && (forall p | p in parts :: p.amount < 0)
    ensures RecordsOk(DebitTxn(db, t, parts, day))
  {
    var a, delta := db.txns[t].debit, -db.txns[t].amount;
    var e := AccountChange(t, a, delta, db.accounts[a].balance, db.accounts[a].balance + delta);
    var accounts1 := db.accounts[a := db.accounts[a].(balance := db.accounts[a].balance + delta)];
    DebitKeepsTxnInv(db.accounts, db.txns, t, db.accountLog, e, db.bookLog, db.books[a], parts, day, db.outbox);
    DebitTables(db, t, parts, day);
    RecordsFrom(DebitTxn(db, t, parts, day), accounts1, AfterDebit(db.txns, t), db.accountLog + [e],
                db.bookLog + PartChanges(t, a, db.books[a], parts, day), db.outbox);
  }

  lemma {:induction false} DebitKeepsInv(db: Db, t: TxnNo, parts: seq<Part>, day: Date)
    requires Inv(db) && DebitReady(db.accounts, db.txns, t) && db.txns[t].debit in db.books
    requires PostingOk(db.accounts[db.txns[t].debit], db.books[db.txns[t].debit], -db.txns[t].amount, parts)
    requires ClockInRange(day) && PartsSorted(parts) && (forall p | p in parts :: p.amount < 0)
    ensures Inv(DebitTxn(db, t, parts, day))
  {
    DebitKeepsMoney(db, t, parts, day);
    DebitKeepsRecords(db, t, parts, day);
  }

  // ---------- credit ----------

  function AfterCredit(txns: map<TxnNo, Txn>, t: TxnNo): map<TxnNo, Txn>
    requires t in txns
  {
    txns[t := txns[t].(status := RecvSuccess)]
  }

  ghost predicate CreditReady(accounts: map<AccountNo, Account>, txns: map<TxnNo, Txn>, t: TxnNo) {
    && t in txns && txns[t].status == PaySuccess
    && Resolves(accounts, txns[t].merchant, txns[t].debit, txns[t].credit)
  }

  lemma {:induction false} AfterCreditGrows(txns: map<TxnNo, Txn>, t: TxnNo)
    requires t in txns && txns[t].status == PaySuccess
    ensures var txns1 := AfterCredit(txns, t);
            && txns1.Keys == txns.Keys && Grows(txns, txns1) && NoFall(txns, txns1)
            && (forall u | u in txns :: txns1[u].refundable == txns[u].refundable)
            && (forall u | u in txns && u != t :: txns1[u] == txns[u])
  {
  }

  lemma {:induction false} CreditTxns(accounts: map<AccountNo, Account>, accounts1: map<AccountNo, Account>,
                                      txns: map<TxnNo, Txn>, t: TxnNo)
    requires TxnsOk(accounts, txns) && TradesUnique(txns) && CreditReady(accounts, txns, t)
    requires SameAccounts(accounts, accounts1)
    ensures TxnsOk(accounts1, AfterCredit(txns, t)) && TradesUnique(AfterCredit(txns, t))
  {
    AfterCreditGrows(txns, t);
    forall u | u in txns
      ensures txns[u].refundable >= 0 && (Debited(AfterCredit(txns, t)[u].status) ==> txns[u].debit != "")
    {
      assert TxnOk(accounts, txns, txns[u]);
    }
    TxnsFrame(accounts, accounts1, txns, AfterCredit(txns, t));
    TradesFrame(txns, AfterCredit(txns, t));
  }

  lemma {:induction false} CreditJournal(txns: map<TxnNo, Txn>, t: TxnNo, log: seq<AccountChange>, e: AccountChange)
    requires t in txns && txns[t].status == PaySuccess && JournalOk(txns, log)
    requires e.txn == t && e.account == txns[t].credit && e.delta == txns[t].amount
    ensures JournalOk(AfterCredit(txns, t), log + [e])
  {
    var txns1 := AfterCredit(txns, t);
    forall u: TxnNo
      ensures Expected(txns1, u) == Expected(txns, u) + (if u == t then [(e.account, e.delta)] else [])
    {
    }
    JournalSnoc(txns, txns1, log, e);
  }

  lemma {:induction false} TracePartsAt(log: seq<BookChange>, t: TxnNo, a: AccountNo, d: Date)
    ensures SumBy(DebitOn(t, a, d), log) == PartsAt(TraceParts(Trace(log, t, a)), d)
  {
    if log == [] {
    } else {
      TracePartsAt(log[1..], t, a, d);
      var c, rest := log[0], Trace(log[1..], t, a);
      if IsTrace(t, a)(c) {
        var parts := TraceParts([c] + rest);
        assert parts[0] == Part(c.expireAt, -c.delta);
        assert parts[1..] == TraceParts(rest);
      } else {
        assert Trace(log, t, a) == rest;
      }
    }
  }

  lemma {:induction false} PartChangesCredit(t: TxnNo, a: AccountNo, bs: seq<Book>, parts: seq<Part>, day: Date,
                                             d: Date)
    requires Positive(parts)
    ensures SumBy(CreditOn(t, a, d), PartChanges(t, a, bs, parts, day)) == PartsAt(parts, d)
    decreases |parts|
  {
    if parts == [] {
    } else {
      var n := |parts| - 1;
      var changes := PartChanges(t, a, bs, parts, day);
      PartChangesCredit(t, a, bs, parts[..n], day, d);
      assert changes[..n] == PartChanges(t, a, bs, parts[..n], day);
      assert changes == changes[..n] + [changes[n]] && parts == parts[..n] + [parts[n]];
      assert parts[n] in parts;
      SumSnoc(CreditOn(t, a, d), changes[..n], changes[n]);
      SumSnoc(AmountOn(d), parts[..n], parts[n]);
    }
  }

  /** Replaying the debit trace as the credit keeps the expiry profile. */
  lemma {:induction false} CreditProfile(txns: map<TxnNo, Txn>, t: TxnNo, bookLog: seq<BookChange>, bs: seq<Book>,
                                         parts: seq<Part>, day: Date)
    requires t in txns && txns[t].status == PaySuccess && BookJournalOk(txns, bookLog)
    requires Positive(parts) && parts == TraceParts(Trace(bookLog, t, txns[t].debit))
    ensures ProfileKept(bookLog + PartChanges(t, txns[t].credit, bs, parts, day), t, txns[t].debit, txns[t].credit)
  {
    var debit, credit := txns[t].debit, txns[t].credit;
    var changes := PartChanges(t, credit, bs, parts, day);
    PartChangesRows(t, credit, bs, parts, day);
    forall d: Date
      ensures SumBy(CreditOn(t, credit, d), bookLog + changes) == SumBy(DebitOn(t, debit, d), bookLog + changes)
    {
      forall c | c in bookLog
        ensures CreditOn(t, credit, d)(c) == 0
      {
        assert BookEntryOk(txns, c);
      }
      SumConcat(CreditOn(t, credit, d), bookLog, changes);
      SumZero(CreditOn(t, credit, d), bookLog);
      PartChangesCredit(t, credit, bs, parts, day, d);
      TracePartsAt(bookLog, t, debit, d);
      SumOther(DebitOn(t, debit, d), bookLog, changes);
    }
  }

  lemma {:induction false} CreditBookLog(accounts: map<AccountNo, Account>, accounts1: map<AccountNo, Account>,
                                         txns: map<TxnNo, Txn>, t: TxnNo,
                                         bookLog: seq<BookChange>, bs: seq<Book>, parts: seq<Part>, day: Date)
    requires TxnsOk(accounts, txns) && CreditReady(accounts, txns, t) && SameAccounts(accounts, accounts1)
    requires BookJournalOk(txns, bookLog) && TracesOk(accounts, txns, bookLog) && ProfilesOk(accounts, txns, bookLog)
    requires Positive(parts)
    requires BookToBook(accounts, txns[t]) ==> parts == TraceParts(Trace(bookLog, t, txns[t].debit))
    ensures var bookLog1 := bookLog + PartChanges(t, txns[t].credit, bs, parts, day);
            var txns1 := AfterCredit(txns, t);
            && BookJournalOk(txns1, bookLog1)
            && TracesOk(accounts1, txns1, bookLog1) && ProfilesOk(accounts1, txns1, bookLog1)
  {
    var x, txns1 := txns[t], AfterCredit(txns, t);
    var changes := PartChanges(t, x.credit, bs, parts, day);
    AfterCreditGrows(txns, t);
    PartChangesRows(t, x.credit, bs, parts, day);
    BookJournalFrame(txns, txns1, bookLog, changes);
    PartiesKnown(accounts, txns);
    TraceOther(bookLog, changes, t, x.debit);
    TracesFrame(accounts, accounts1, txns, txns1, bookLog, changes, t);
    if BookToBook(accounts, x) {
      CreditProfile(txns, t, bookLog, bs, parts, day);
    }
    ProfilesFrame(accounts, accounts1, txns, txns1, bookLog, changes, t);
  }

  lemma {:induction false} CreditSums(txns: map<TxnNo, Txn>, t: TxnNo, log: seq<AccountChange>, e: AccountChange)
    requires t in txns && txns[t].status == PaySuccess
    requires QuotaOk(txns) && StatsOk(txns, log) && (forall e | e in log :: e.txn in txns)
    requires e.delta >= 0
    ensures QuotaOk(AfterCredit(txns, t)) && StatsOk(AfterCredit(txns, t), log + [e])
  {
    var txns1 := AfterCredit(txns, t);
    AfterCreditGrows(txns, t);
    forall o | o in txns1 && txns1[o].biz == Transfer
      ensures QuotaKept(txns1, o) && StatsAgree(txns1, log + [e], o)
    {
      assert QuotaKept(txns, o) && StatsAgree(txns, log, o) && SameTerms(txns[o], txns1[o]);
      SumMapUpdate(RefundedBy(o), txns, t, txns1[t]);
      StatsFrame(txns, txns1, txns[o].merchant, o, txns[o].credit, log);
      SumSnoc(DebitedAmount(txns1, txns[o].merchant, o, txns[o].credit), log, e);
    }
  }

  lemma {:induction false} CreditZeroSum(accounts: map<AccountNo, Account>, txns: map<TxnNo, Txn>, t: TxnNo)
    requires CreditReady(accounts, txns, t) && ZeroSum(accounts, txns)
    ensures var a := txns[t].credit;
            ZeroSum(accounts[a := accounts[a].(balance := accounts[a].balance + txns[t].amount)], AfterCredit(txns, t))
  {
    var a, delta := txns[t].credit, txns[t].amount;
    var accounts1 := accounts[a := accounts[a].(balance := accounts[a].balance + delta)];
    forall m: MerchantNo
      ensures Balanced(accounts1, AfterCredit(txns, t), m)
    {
      assert Balanced(accounts, txns, m);
      BalancePost(accounts, a, delta, m);
      SumMapUpdate(InFlight(m), txns, t, txns[t].(status := RecvSuccess));
    }
  }

  /** The outbox after a commit: one event when the merchant's webhook is enabled. */
  function AfterEmit(txns: map<TxnNo, Txn>, t: TxnNo, webhooks: set<MerchantNo>,
                     outbox: seq<OutboxEvent>): seq<OutboxEvent>
    requires t in txns
  {
    if txns[t].merchant in webhooks then outbox + [OutboxEvent(t, txns[t].merchant, txns[t].outTradeNo)] else outbox
  }

  lemma {:induction false} CreditOutbox(txns: map<TxnNo, Txn>, t: TxnNo, webhooks: set<MerchantNo>,
                                        outbox: seq<OutboxEvent>)
    requires t in txns && txns[t].status == PaySuccess && OutboxOk(txns, outbox)
    ensures OutboxOk(AfterCredit(txns, t), AfterEmit(txns, t, webhooks, outbox))
    ensures forall e | e in outbox :: e.txn != t
  {
    AfterCreditGrows(txns, t);
    OutboxFrame(txns, AfterCredit(txns, t), outbox);
    forall e | e in outbox
      ensures e.txn != t
    {
      assert EventOk(txns, e);
    }
  }

  lemma {:induction false} CreditKeepsTxnInv(accounts: map<AccountNo, Account>, txns: map<TxnNo, Txn>, t: TxnNo,
                                             log: seq<AccountChange>, e: AccountChange, bookLog: seq<BookChange>,
                                             bs: seq<Book>,
                                             parts: seq<Part>, day: Date, webhooks: set<MerchantNo>,
                                             outbox: seq<OutboxEvent>)
    requires TxnInv(accounts, txns, log, bookLog, outbox) && CreditReady(accounts, txns, t)
    requires e.txn == t && e.account == txns[t].credit && e.delta == txns[t].amount
    requires Positive(parts)
    requires BookToBook(accounts, txns[t]) ==> parts == TraceParts(Trace(bookLog, t, txns[t].debit))
    ensures var a := txns[t].credit;
            var accounts1 := accounts[a := accounts[a].(balance := accounts[a].balance + txns[t].amount)];
            TxnInv(accounts1, AfterCredit(txns, t), log + [e], bookLog + PartChanges(t, a, bs, parts, day),
                   AfterEmit(txns, t, webhooks, outbox))
  {
    var a := txns[t].credit;
    var accounts1 := accounts[a := accounts[a].(balance := accounts[a].balance + txns[t].amount)];
    assert TxnOk(accounts, txns, txns[t]);
    assert SameAccounts(accounts, accounts1);
    CreditTxns(accounts, accounts1, txns, t);
    CreditJournal(txns, t, log, e);
    CreditBookLog(accounts, accounts1, txns, t, bookLog, bs, parts, day);
    CreditOutbox(txns, t, webhooks, outbox);
    CreditSums(txns, t, log, e);
    CreditZeroSum(accounts, txns, t);
  }

  function CreditTxn(db: Db, t: TxnNo, parts: seq<Part>, day: Date, webhooks: set<MerchantNo>): Db
    requires t in db.txns && db.txns[t].credit in db.accounts
  {
    Post(db, t, db.txns[t].credit, db.txns[t].amount, parts, day).(
      txns := AfterCredit(db.txns, t), outbox := AfterEmit(db.txns, t, webhooks, db.outbox))
  }

  lemma {:induction false} CreditTables(db: Db, t: TxnNo, parts: seq<Part>, day: Date, webhooks: set<MerchantNo>)
    requires t in db.txns && db.txns[t].credit in db.accounts && db.txns[t].credit in db.books
    ensures var db1 := CreditTxn(db, t, parts, day, webhooks);
            var a, delta := db.txns[t].credit, db.txns[t].amount;
            var acc := db.accounts[a];
            && db1.merchants == db.merchants
            && db1.accounts == db.accounts[a := acc.(balance := acc.balance + delta)]
            && db1.books == db.books[a := ApplyParts(db.books[a], parts)]
            && db1.txns == AfterCredit(db.txns, t) && db1.outbox == AfterEmit(db.txns, t, webhooks, db.outbox)
            && db1.accountLog == db.accountLog + [AccountChange(t, a, delta, acc.balance, acc.balance + delta)]
            && db1.bookLog == db.bookLog + PartChanges(t, a, db.books[a], parts, day)
  {
  }

  lemma {:induction false} CreditKeepsMoney(db: Db, t: TxnNo, parts: seq<Part>, day: Date, webhooks: set<MerchantNo>)
    requires MoneyOk(db) && t in db.txns && db.txns[t].credit in db.accounts && db.txns[t].credit in db.books
    requires PostingOk(db.accounts[db.txns[t].credit], db.books[db.txns[t].credit], db.txns[t].amount, parts)
    ensures MoneyOk(CreditTxn(db, t, parts, day, webhooks))
  {
    CreditTables(db, t, parts, day, webhooks);
    PostedMoney(db, CreditTxn(db, t, parts, day, webhooks), t, db.txns[t].credit, db.txns[t].amount, parts, day);
  }

  lemma {:induction false} CreditKeepsRecords(db: Db, t: TxnNo, parts: seq<Part>, day: Date, webhooks: set<MerchantNo>)
    requires RecordsOk(db) && CreditReady(db.accounts, db.txns, t) && db.txns[t].credit in db.books && Positive(parts)
    requires BookToBook(db.accounts, db.txns[t]) ==> parts == TraceParts(Trace(db.bookLog, t, db.txns[t].debit))
    ensures RecordsOk(CreditTxn(db, t, parts, day, webhooks))
  {
    var a, delta := db.txns[t].credit, db.txns[t].amount;
    var e := AccountChange(t, a, delta, db.accounts[a].balance, db.accounts[a].balance + delta);
    var accounts1 := db.accounts[a := db.accounts[a].(balance := db.accounts[a].balance + delta)];
    CreditKeepsTxnInv(db.accounts, db.txns, t, db.accountLog, e, db.bookLog, db.books[a], parts, day, webhooks,
                      db.outbox);
    CreditTables(db, t, parts, day, webhooks);
    RecordsFrom(CreditTxn(db, t, parts, day, webhooks), accounts1, AfterCredit(db.txns, t), db.accountLog + [e],
                db.bookLog + PartChanges(t, a, db.books[a], parts, day), AfterEmit(db.txns, t, webhooks, db.outbox));
  }

  lemma {:induction false} CreditKeepsInv(db: Db, t: TxnNo, parts: seq<Part>, day: Date, webhooks: set<MerchantNo>)
    requires Inv(db) && CreditReady(db.accounts, db.txns, t) && db.txns[t].credit in db.books
    requires PostingOk(db.accounts[db.txns[t].credit], db.books[db.txns[t].credit], db.txns[t].amount, parts)
    requires Positive(parts)
    requires BookToBook(db.accounts, db.txns[t]) ==> parts == TraceParts(Trace(db.bookLog, t, db.txns[t].debit))
    ensures Inv(CreditTxn(db, t, parts, day, webhooks))
  {
    CreditKeepsMoney(db, t, parts, day, webhooks);
    CreditKeepsRecords(db, t, parts, day, webhooks);
  }
}
