/** Refunds give time back: what a payment took from the book of a date, a full refund returns with as
    many days left, whatever happened in between. */
module Restoration {
  import opened Domain
  import opened Collections
  import opened Books
  import opened Fefo
  import opened Refunds
  import opened Ledger
  import opened Invariants
  import opened Frames
  import opened Effects
  import opened Stages
  import opened Runs
  import opened Guarantees
  import opened RefundHistory
  import opened RefundLog

  // ---------- the payment ----------

  /** What a debit of a book account logs: its draws from unexpired books, on the day it is made. */
  lemma {:induction false} DebitIsLogged(db: Db, t: TxnNo, env: Env)
    requires Inv(db) && t in db.txns && db.txns[t].status == Init && ClockInRange(env.today)
    requires StageInit(db, t, env).Ok? && IsBook(db.accounts, db.txns[t].debit)
    ensures var a, db2 := db.txns[t].debit, StageInit(db, t, env).value;
            && Sweep(db, a, env).Ok? && a in Sweep(db, a, env).value.books && a in Sweep(db, a, env).value.accounts
            && a in db2.books && db.txns[t].amount > 0
            && var swept := Sweep(db, a, env).value;
            && var parts := DebitParts(swept, a, db.txns[t].amount, env.today);
            && (forall p | p in parts :: p.amount < 0 && env.today < p.expireAt)
            && db2.books[a] == ApplyParts(swept.books[a], parts)
            && Trace(db2.bookLog, t, a) == PartChanges(t, a, swept.books[a], parts, env.today)
  {
    var a := db.txns[t].debit;
    StageInitIsDebit(db, t, env);
    SweepKeepsInv(db, a, env);
    var swept := Sweep(db, a, env).value;
    BooksConsistent(swept, a);
    var parts := DebitParts(swept, a, db.txns[t].amount, env.today);
    DrawOnBooks(swept.books[a], env.today, db.txns[t].amount);
    DebitTables(swept, t, parts, env.today);
    NoEntriesYet(swept.txns, swept.bookLog, t);
    PartChangesRows(t, a, swept.books[a], parts, env.today);
    TraceBorn(swept.bookLog, t, a, PartChanges(t, a, swept.books[a], parts, env.today));
  }

  /** What the entries of a debit say about one date is what it took from the book of that date. */
  lemma {:induction false} EntriesOn(t: TxnNo, a: AccountNo, bs: seq<Book>, parts: seq<Part>, day: Date, d: Date)
    requires d != day + MAX_DAYS && forall p | p in parts :: p.amount < 0
    ensures SumBy(TakenFrom(day, d), PartChanges(t, a, bs, parts, day)) == -PartsAt(parts, d)
  {
    if parts == [] {
    } else {
      assert parts[0] in parts && forall p | p in parts[1..] :: p in parts;
      assert PartChanges(t, a, bs, parts, day)[1..] == PartChanges(t, a, bs, parts[1..], day);
      EntriesOn(t, a, bs, parts[1..], day, d);
    }
  }

  /** A payment takes from the book of a date what its entries say. */
  lemma {:induction false} PaymentTakes(db: Db, o: TxnNo, env: Env, d: Date)
    requires Inv(db) && o in db.txns && db.txns[o].status == Init && ClockInRange(env.today)
    requires StageInit(db, o, env).Ok? && IsBook(db.accounts, db.txns[o].debit)
    requires env.today < d < env.today + MAX_DAYS
    ensures var a, db2 := db.txns[o].debit, StageInit(db, o, env).value;
            && a in db.books && a in db2.books
            && SpentOn(Trace(db2.bookLog, o, a), env.today)
            && SumBy(TakenFrom(env.today, d), Trace(db2.bookLog, o, a))
               == BalanceAt(db.books[a], d) - BalanceAt(db2.books[a], d)
  {
    var a := db.txns[o].debit;
    DebitIsLogged(db, o, env);
    SweptBooks(db, a, env);
    BooksConsistent(db, a);
    var swept := Sweep(db, a, env).value;
    var parts := DebitParts(swept, a, db.txns[o].amount, env.today);
    SweepOnBooks(db.books[a], env.today);
    ApplySorted(db.books[a], SweepParts(db.books[a], env.today));
    ApplyBalance(swept.books[a], parts, d);
    EntriesOn(o, a, swept.books[a], parts, env.today, d);
    PartChangesRows(o, a, swept.books[a], parts, env.today);
  }

  // ---------- the refund ----------

  /** What a slice adds to the book that is d - s days ahead. */
  lemma {:induction false} SliceAdds(bs: seq<Book>, trace: seq<BookChange>, sl: Slice, base: Date, s: Date, d: Date,
                                     back: Date)
    requires Sorted(bs) && SpentOn(trace, s) && s < d <= s + MAX_DAYS && sl.offset >= 0 && sl.amount >= 0
    requires back == base + (d - s)
    ensures BalanceAt(ApplyParts(bs, RefundParts(trace, sl.offset, sl.amount, base)), back)
         == BalanceAt(bs, back) + UsedFrom(trace, Uses(trace, sl.offset, sl.amount), s, d)
  {
    ApplyBalance(bs, RefundParts(trace, sl.offset, sl.amount, base), back);
    RefundByDate(trace, sl.offset, sl.amount, s, base, d);
  }

  /** What a refund adds to the book that is d - s days ahead, given its origin was paid on day `s`. */
  lemma {:induction false} RefundAdds(db: Db, t: TxnNo, o: TxnNo, env: Env, s: Date, d: Date, back: Date)
    requires Inv(db) && t in db.txns && RefundRow(db.txns[t], o) && db.txns[t].status == PaySuccess
    requires ClockInRange(env.today) && IsBook(db.accounts, db.txns[t].credit)
    requires o in db.txns && SpentOn(Trace(db.bookLog, o, db.txns[o].debit), s)
    requires s < d <= s + MAX_DAYS && back == env.today + (d - s)
    ensures var a, r := db.txns[t].credit, StagePay(db, t, env);
            var trace, sl := Trace(db.bookLog, o, db.txns[o].debit), SliceOf(db, t, o);
            && sl.offset >= 0 && sl.amount > 0 && r.Ok? && a in db.books && a in r.value.books
            && BalanceAt(r.value.books[a], back)
               == BalanceAt(db.books[a], back) + UsedFrom(trace, Uses(trace, sl.offset, sl.amount), s, d)
  {
    RefundCreditBooks(db, t, o, env);
    SliceAdds(db.books[db.txns[t].credit], Trace(db.bookLog, o, db.txns[o].debit), SliceOf(db, t, o), env.today, s, d,
              back);
  }

  lemma {:induction false} RefundCreditBooks(db: Db, t: TxnNo, o: TxnNo, env: Env)
    requires Inv(db) && t in db.txns && RefundRow(db.txns[t], o) && db.txns[t].status == PaySuccess
    requires ClockInRange(env.today) && IsBook(db.accounts, db.txns[t].credit)
    ensures var a, r := db.txns[t].credit, StagePay(db, t, env);
            && o in db.txns && SliceOf(db, t, o).offset >= 0 && SliceOf(db, t, o).amount > 0
            && var s := SliceOf(db, t, o);
            && r.Ok? && a in db.books && a in r.value.books && Sorted(db.books[a])
            && r.value.books[a]
               == ApplyParts(db.books[a], RefundParts(Trace(db.bookLog, o, db.txns[o].debit), s.offset, s.amount,
                                                      env.today))
  {
    SliceExact(db, t, o);
    RefundStatsExact(db.txns, db.accounts, db.accountLog, t);
    RefundPartsExact(db, t, env.today);
    StagePaySucceeds(db, t, env);
    BooksConsistent(db, db.txns[t].credit);
    CreditTables(db, t, CreditPartsOf(db, t, env.today), env.today, db.webhooks);
  }

  /** A refund of the whole amount restores the whole trace. */
  lemma {:induction false} FullSlice(db: Db, t: TxnNo, o: TxnNo, s: Date, d: Date)
    requires Inv(db) && t in db.txns && RefundRow(db.txns[t], o) && db.txns[t].status == PaySuccess
    requires o in db.txns && db.txns[t].amount == db.txns[o].amount && IsBook(db.accounts, db.txns[t].credit)
    requires s < d <= s + MAX_DAYS && SpentOn(Trace(db.bookLog, o, db.txns[o].debit), s)
    ensures var trace := Trace(db.bookLog, o, db.txns[o].debit);
            && SliceOf(db, t, o) == Slice(0, ConsumedTotal(trace)) && ConsumedTotal(trace) >= 0
            && UsedFrom(trace, Uses(trace, 0, ConsumedTotal(trace)), s, d) == SumBy(TakenFrom(s, d), trace)
  {
    var trace := Trace(db.bookLog, o, db.txns[o].debit);
    OriginOfRefund(db, t, o);
    SliceExact(db, t, o);
    assert TxnOk(db.accounts, db.txns, db.txns[o]) && QuotaKept(db.txns, o);
    assert GoodTrace(trace, db.txns[o].amount);
    FullRefundByDate(trace, s, 0, d);
    RefundByDate(trace, 0, ConsumedTotal(trace), s, 0, d);
  }

  /** `t` refunds all of `o`, has been debited and waits for its credit. */
  ghost predicate FullRefundPending(db: Db, t: TxnNo, o: TxnNo) {
    && t in db.txns && RefundRow(db.txns[t], o) && db.txns[t].status == PaySuccess
    && o in db.txns && db.txns[t].amount == db.txns[o].amount
  }

  lemma {:induction false} FullRefundAdds(db: Db, t: TxnNo, o: TxnNo, env: Env, s: Date, d: Date, back: Date)
    requires Inv(db) && FullRefundPending(db, t, o) && ClockInRange(env.today)
    requires s < d <= s + MAX_DAYS && back == env.today + (d - s)
    requires IsBook(db.accounts, db.txns[o].debit) && SpentOn(Trace(db.bookLog, o, db.txns[o].debit), s)
    ensures var a, r := db.txns[o].debit, StagePay(db, t, env);
            && r.Ok? && a in db.books && a in r.value.books
            && BalanceAt(r.value.books[a], back)
               == BalanceAt(db.books[a], back) + SumBy(TakenFrom(s, d), Trace(db.bookLog, o, a))
  {
    OriginOfRefund(db, t, o);
    RefundAdds(db, t, o, env, s, d, back);
    FullSlice(db, t, o, s, d);
  }

  // ---------- from payment to refund ----------

  lemma {:induction false} AccountsStay(run: seq<Event>, more: seq<Event>)
    requires AllLegal(run + more)
    ensures AccountsGrow(Run(run).db.accounts, Run(run + more).db.accounts)
    decreases |more|
  {
    if more == [] {
      assert run + more == run;
    } else {
      var n := |more| - 1;
      RunExtends(run, more);
      AccountsStay(run, more[..n]);
      RunsKeepInv(run + more[..n]);
      StepAccounts(Run(run + more[..n]), more[n]);
    }
  }

  /** `db` is what became of `db1`, in which `o` had just been debited. */
  ghost predicate CameAfter(db1: Db, db: Db, o: TxnNo) {
    && o in db1.txns && o in db.txns && SameTerms(db1.txns[o], db.txns[o])
    && AccountsGrow(db1.accounts, db.accounts)
    && Trace(db.bookLog, o, db1.txns[o].debit) == Trace(db1.bookLog, o, db1.txns[o].debit)
  }

  lemma {:induction false} RunCameAfter(paid: seq<Event>, more: seq<Event>, o: TxnNo)
    requires AllLegal(paid + more) && o in Run(paid).db.txns && Run(paid).db.txns[o].status == PaySuccess
    ensures CameAfter(Run(paid).db, Run(paid + more).db, o)
  {
    ProgressIsKept(paid, more, o);
    TraceIsFixed(paid, more, o, Run(paid).db.txns[o].debit);
    AccountsStay(paid, more);
  }

  lemma {:induction false} DebitedTerms(db: Db, o: TxnNo, env: Env)
    requires Inv(db) && o in db.txns && db.txns[o].status == Init && ClockInRange(env.today)
    requires StageInit(db, o, env).Ok?
    ensures var db1 := StageInit(db, o, env).value;
            && o in db1.txns && db1.txns[o].status == PaySuccess && SameTerms(db.txns[o], db1.txns[o])
            && AccountsGrow(db.accounts, db1.accounts)
  {
    StatusAfterDebit(db, o, env, o);
    StageInitRows(db, o, env);
    StageInitAccounts(db, o, env);
    assert RowStep(db.txns, o, StageInit(db, o, env).value.txns[o]);
  }

  /** The credit stage of `t` adds to the book of date `back` what was taken from that of date `d`
      between `db0` and `db1`. */
  ghost predicate GivesBack(db0: Db, db1: Db, db: Db, a: AccountNo, t: TxnNo, env: Env, d: Date, back: Date) {
    && t in db.txns && StagePay(db, t, env).Ok?
    && var books1 := StagePay(db, t, env).value.books;
    && a in books1 && a in db.books && a in db0.books && a in db1.books
    && BalanceAt(books1[a], back) - BalanceAt(db.books[a], back)
       == BalanceAt(db0.books[a], d) - BalanceAt(db1.books[a], d)
  }

  /** Between `db0` and `db1` the payment `o` of day `s` took from the book of `d` what its trace says. */
  ghost predicate Took(db0: Db, db1: Db, o: TxnNo, a: AccountNo, s: Date, d: Date) {
    && a in db0.books && a in db1.books && SpentOn(Trace(db1.bookLog, o, a), s)
    && SumBy(TakenFrom(s, d), Trace(db1.bookLog, o, a)) == BalanceAt(db0.books[a], d) - BalanceAt(db1.books[a], d)
  }

  ghost predicate JustTook(db0: Db, db1: Db, o: TxnNo, a: AccountNo, s: Date, d: Date) {
    && Took(db0, db1, o, a, s, d) && IsBook(db1.accounts, a)
    && o in db1.txns && db1.txns[o].status == PaySuccess && db1.txns[o].debit == a
  }

  lemma {:induction false} PaymentTook(db: Db, o: TxnNo, env: Env, d: Date)
    requires Inv(db) && o in db.txns && db.txns[o].status == Init && ClockInRange(env.today)
    requires StageInit(db, o, env).Ok? && IsBook(db.accounts, db.txns[o].debit)
    requires env.today < d < env.today + MAX_DAYS
    ensures JustTook(db, StageInit(db, o, env).value, o, db.txns[o].debit, env.today, d)
  {
    DebitedTerms(db, o, env);
    PaymentTakes(db, o, env, d);
  }

  lemma {:induction false} RefundGivesBack(db0: Db, db1: Db, db: Db, o: TxnNo, a: AccountNo, s: Date, t: TxnNo,
                                           env: Env, d: Date, back: Date)
    requires JustTook(db0, db1, o, a, s, d) && CameAfter(db1, db, o) && Inv(db) && FullRefundPending(db, t, o)
    requires ClockInRange(env.today) && s < d < s + MAX_DAYS && back == env.today + (d - s)
    ensures GivesBack(db0, db1, db, a, t, env, d, back)
  {
    FullRefundAdds(db, t, o, env, s, d, back);
  }

  lemma {:induction false} RefundedRun(db0: Db, paid: seq<Event>, more: seq<Event>, o: TxnNo, a: AccountNo, s: Date,
                                       t: TxnNo, env: Env, d: Date, back: Date)
    requires AllLegal(paid + more) && JustTook(db0, Run(paid).db, o, a, s, d) && s < d < s + MAX_DAYS
    requires FullRefundPending(Run(paid + more).db, t, o) && ClockInRange(env.today) && back == env.today + (d - s)
    ensures GivesBack(db0, Run(paid).db, Run(paid + more).db, a, t, env, d, back)
  {
    RunCameAfter(paid, more, o);
    RunsKeepInv(paid + more);
    RefundGivesBack(db0, Run(paid).db, Run(paid + more).db, o, a, s, t, env, d, back);
  }

  /** The run `paid` ends with the payment of `o` from a book account on day `env.today`, which leads
      from `db0` to `db1`; after `more` the tables are `db`. */
  ghost predicate PaidAndMore(paid: seq<Event>, more: seq<Event>, o: TxnNo, env: Env, db0: Db, db1: Db, db: Db) {
    && AllLegal(paid + more) && AllLegal(paid)
    && paid != [] && paid[|paid| - 1] == StageTried(o, Init, env)
    && Run(paid[..|paid| - 1]).db == db0 && Run(paid).db == db1 && Run(paid + more).db == db
    && o in db0.txns && db0.txns[o].status == Init && IsBook(db0.accounts, db0.txns[o].debit)
    && o in db1.txns && db1.txns[o].status == PaySuccess
  }

  lemma {:induction false} PaidRun(paid: seq<Event>, o: TxnNo, env: Env, db0: Db, d: Date)
    requires PaidAndMore(paid, [], o, env, db0, Run(paid).db, Run(paid).db) && env.today < d < env.today + MAX_DAYS
    ensures JustTook(db0, Run(paid).db, o, db0.txns[o].debit, env.today, d)
  {
    var before := paid[..|paid| - 1];
    assert forall e | e in before :: e in paid;
    assert StageTried(o, Init, env) in paid;
    RunsKeepInv(before);
    PaymentTook(Run(before).db, o, env, d);
  }

  /** A full refund gives back time: what the payment of day s took from the book of a date d, less
      than the cap away, the refund on any day b adds to the book of b + (d - s), whatever happened in
      between; refunded on the day it was paid, every such book gets its money back. */
  lemma {:induction false} FullRefundRestores(paid: seq<Event>, more: seq<Event>, o: TxnNo, env: Env, db0: Db, db1: Db,
                                              db: Db, t: TxnNo, later: Env, d: Date, back: Date)
    requires PaidAndMore(paid, more, o, env, db0, db1, db) && env.today < d < env.today + MAX_DAYS
    requires FullRefundPending(db, t, o) && ClockInRange(later.today) && back == later.today + (d - env.today)
    ensures GivesBack(db0, db1, db, db0.txns[o].debit, t, later, d, back)
  {
    assert paid + [] == paid;
    PaidRun(paid, o, env, db0, d);
    RefundedRun(db0, paid, more, o, db0.txns[o].debit, env.today, t, later, d, back);
  }
}
