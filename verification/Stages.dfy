/** What the two stages of a transaction guarantee: the debit stage agrees with a plain balance
    check on what is available, the credit stage cannot fail, and both keep the invariant. */
module Stages {
  import opened Domain
  import opened Collections
  import opened Books
  import opened Fefo
  import opened Refunds
  import opened Ledger
  import opened Invariants
  import opened Postings
  import opened Frames
  import opened Effects
  import opened Maintenance

  // ---------- debit ----------

  /** GetAvailableBalance. */
  function AvailableBalance(db: Db, a: AccountNo, today: Date): int
    requires a in db.accounts
  {
    if db.accounts[a].bookEnabled then AvailableTotal(BooksOf(db, a), today) else db.accounts[a].balance
  }

  lemma {:induction false} WriteOffTables(db: Db, a: AccountNo, w: AccountNo, t: TxnNo, today: Date)
    requires a in db.accounts && w in db.accounts && a in db.books && w in db.books && a != w
    requires !db.accounts[w].bookEnabled
    ensures var db1 := WriteOff(db, a, w, t, today);
            var total := Total(Expired(db.books[a], today));
            && db1.txns == db.txns[t := WriteoffRow(db, a, w, t, total)]
            && db1.accounts == db.accounts[a := db.accounts[a].(balance := db.accounts[a].balance + -total)]
                                          [w := db.accounts[w].(balance := db.accounts[w].balance + total)]
            && db1.books[a] == ApplyParts(db.books[a], SweepParts(db.books[a], today))
            && a in db1.books && db1.webhooks == db.webhooks && db1.outbox == db.outbox
  {
  }

  /** Write-offs of one account get the same trade number exactly when their transaction numbers
      agree on the first eight characters that are not dashes. */
  lemma {:induction false} WriteoffTradeNoClash(a: AccountNo, t: TxnNo, u: TxnNo)
    ensures WriteoffTradeNo(a, t) == WriteoffTradeNo(a, u) <==> ShortNo(t) == ShortNo(u)
  {
    var prefix := "sys_expire_" + a + "_";
    assert WriteoffTradeNo(a, t)[|prefix|..] == ShortNo(t);
    assert WriteoffTradeNo(a, u)[|prefix|..] == ShortNo(u);
  }

  /** What a sweep leaves alone, and what it makes of the swept account. */
  ghost predicate SweepFrame(db: Db, db1: Db, a: AccountNo, today: Date)
    requires a in db.accounts
  {
    && AccountsGrow(db.accounts, db1.accounts)
    && (forall u | u in db.txns :: u in db1.txns && db1.txns[u] == db.txns[u])
    && (forall u | u in db1.txns && u !in db.txns ::
          db1.txns[u].biz == Transfer && db1.txns[u].scene == ExpireWriteoff && db1.txns[u].status == RecvSuccess)
    && a in db1.accounts && a in db1.books
    && db1.accounts[a] == db.accounts[a].(balance := AvailableBalance(db, a, today))
    && AvailableBalance(db1, a, today) == AvailableBalance(db, a, today)
    && db1.webhooks == db.webhooks && db1.outbox == db.outbox
  }

  lemma {:induction false} WriteOffBalance(db: Db, a: AccountNo, w: AccountNo, t: TxnNo, today: Date)
    requires a in db.accounts && w in db.accounts && a in db.books && w in db.books && !db.accounts[w].bookEnabled
    requires AccountOk(db.accounts[a], db.books[a]) && db.accounts[a].bookEnabled
    ensures var db1 := WriteOff(db, a, w, t, today);
            && a in db1.accounts && a in db1.books
            && db1.accounts[a] == db.accounts[a].(balance := AvailableBalance(db, a, today))
            && AvailableBalance(db1, a, today) == AvailableBalance(db, a, today)
  {
    SweptIsAvailable(db.books[a], today);
    SweepOnBooks(db.books[a], today);
    WriteOffTables(db, a, w, t, today);
  }

  lemma {:induction false} WriteOffFrame(db: Db, a: AccountNo, w: AccountNo, t: TxnNo, today: Date)
    requires a in db.accounts && w in db.accounts && a in db.books && w in db.books && !db.accounts[w].bookEnabled
    requires AccountOk(db.accounts[a], db.books[a]) && db.accounts[a].bookEnabled && t !in db.txns
    ensures SweepFrame(db, WriteOff(db, a, w, t, today), a, today)
  {
    WriteOffBalance(db, a, w, t, today);
    WriteOffTables(db, a, w, t, today);
  }

  /** Opening the write-off account first makes no difference to the frame. */
  lemma {:induction false} FrameTail(db: Db, db1: Db, db2: Db, a: AccountNo, today: Date)
    requires a in db.accounts && a in db.books && a in db1.accounts && a in db1.books
    requires db1.txns == db.txns && db1.outbox == db.outbox && db1.webhooks == db.webhooks
    requires AccountsGrow(db.accounts, db1.accounts) && db1.accounts[a] == db.accounts[a] && db1.books[a] == db.books[a]
    requires SweepFrame(db1, db2, a, today)
    ensures SweepFrame(db, db2, a, today)
  {
  }

  lemma {:induction false} NothingToSweep(db: Db, a: AccountNo, today: Date)
    requires a in db.accounts && a in db.books && AccountOk(db.accounts[a], db.books[a])
    requires !db.accounts[a].bookEnabled || Expired(db.books[a], today) == []
    ensures SweepFrame(db, db, a, today)
  {
    if db.accounts[a].bookEnabled {
      SweptIsAvailable(db.books[a], today);
      assert Total(Expired(db.books[a], today)) == 0;
    }
  }

  /** The sweep keeps the invariant, leaves every existing transaction and the available balance
      as they were, and turns the available balance into the whole balance. */
  lemma {:induction false} SweepKeepsInv(db: Db, a: AccountNo, env: Env)
    requires Inv(db) && a in db.accounts && ClockInRange(env.today) && Sweep(db, a, env).Ok?
    ensures Inv(Sweep(db, a, env).value) && SweepFrame(db, Sweep(db, a, env).value, a, env.today)
  {
    var acc := db.accounts[a];
    BooksConsistent(db, a);
    if !acc.bookEnabled || Expired(db.books[a], env.today) == [] {
      NothingToSweep(db, a, env.today);
    } else {
      EnsureKeepsInv(db, acc.merchant, env.newAccount);
      var (db1, w) := EnsureWriteoff(db, acc.merchant, env.newAccount).value;
      WriteOffKeepsInv(db1, a, w, env.writeoffTxn, env.today);
      WriteOffFrame(db1, a, w, env.writeoffTxn, env.today);
      FrameTail(db, db1, WriteOff(db1, a, w, env.writeoffTxn, env.today), a, env.today);
    }
  }

  /** What a sweep does to the books of the account. */
  lemma {:induction false} SweptBooks(db: Db, a: AccountNo, env: Env)
    requires Inv(db) && IsBook(db.accounts, a) && Sweep(db, a, env).Ok?
    ensures var db1 := Sweep(db, a, env).value;
            && a in db.books && a in db1.books
            && db1.books[a] == ApplyParts(db.books[a], SweepParts(db.books[a], env.today))
  {
    BooksConsistent(db, a);
    if Expired(db.books[a], env.today) != [] {
      var m := db.accounts[a].merchant;
      EnsureKeepsInv(db, m, env.newAccount);
      var (db1, w) := EnsureWriteoff(db, m, env.newAccount).value;
      WriteOffTables(db1, a, w, env.writeoffTxn, env.today);
    }
  }

  /** Book debit refines plain debit: once the sweep can run, sweeping and drawing book by book
      succeeds exactly when the plain check passes on the available balance, and lowers that
      balance by exactly the amount; the "books exhausted" error cannot occur. */
  lemma {:induction false} DebitRefinesPlainCheck(db: Db, t: TxnNo, a: AccountNo, amount: int, env: Env)
    requires Inv(db) && a in db.accounts && amount > 0 && ClockInRange(env.today)
    ensures var swept := Sweep(db, a, env);
            var debited := Debit(db, t, a, amount, env);
            && (swept.Err? ==> debited == Err(swept.error))
            && (swept.Ok? ==>
                  && a in swept.value.accounts
                  && (debited.Ok? <==> CanDebit(db.accounts[a], AvailableBalance(db, a, env.today), amount))
                  && (debited.Err? ==> debited == Err(InsufficientBalance))
                  && (debited.Ok? ==>
                        var parts := DebitParts(swept.value, a, amount, env.today);
                        debited.value == Post(swept.value, t, a, -amount, parts, env.today)))
    ensures var debited := Debit(db, t, a, amount, env);
            debited.Ok? ==>
              && a in debited.value.accounts
              && AvailableBalance(debited.value, a, env.today) == AvailableBalance(db, a, env.today) - amount
  {
    if Sweep(db, a, env).Ok? {
      SweepKeepsInv(db, a, env);
      var db1 := Sweep(db, a, env).value;
      assert AccountOk(db1.accounts[a], db1.books[a]);
      if db1.accounts[a].bookEnabled {
        DrawOnBooks(db1.books[a], env.today, amount);
        ApplyAvailable(db1.books[a], Draw(Available(db1.books[a], env.today), amount), env.today);
      }
    }
  }

  lemma {:induction false} DebitPartsReady(db: Db, a: AccountNo, amount: int, today: Date)
    requires a in db.accounts && a in db.books && AccountOk(db.accounts[a], db.books[a])
    requires CanDebit(db.accounts[a], db.accounts[a].balance, amount)
    requires db.accounts[a].balance == AvailableBalance(db, a, today)
    ensures var parts := DebitParts(db, a, amount, today);
            && PostingOk(db.accounts[a], db.books[a], -amount, parts)
            && PartsSorted(parts) && (forall p | p in parts :: p.amount < 0)
  {
    DebitPostingOk(db.accounts[a], db.books[a], amount, today);
    if db.accounts[a].bookEnabled {
      DrawOnBooks(db.books[a], today, amount);
    }
  }

  /** Posting first and updating the table afterwards is the debit of the transaction. */
  lemma {:induction false} PostThenMark(db: Db, t: TxnNo, parts: seq<Part>, day: Date)
    requires t in db.txns && db.txns[t].debit in db.accounts
    requires db.txns[t].biz == Refund ==> db.txns[t].refundOf.Some? && db.txns[t].refundOf.value in db.txns
    requires db.txns[t].biz == Refund ==> db.txns[t].refundOf.value != t
    ensures var x := db.txns[t];
            var db1 := Post(db, t, x.debit, -x.amount, parts, day);
            var db2 := if x.biz == Refund then TakeBack(db1, x.refundOf.value, x.amount) else db1;
            SetStatus(db2, t, PaySuccess) == DebitTxn(db, t, parts, day)
  {
  }

  lemma {:induction false} SweptReady(db: Db, db1: Db, t: TxnNo, today: Date)
    requires t in db.txns && db.txns[t].status == Init && db.txns[t].debit in db.accounts
    requires TxnOk(db.accounts, db.txns, db.txns[t]) && db.txns[t].debit != ""
    requires db.txns[t].biz == Refund ==>
               CanTakeBack(db.txns, db.txns[t].refundOf.value, db.txns[t].merchant, db.txns[t].amount)
    requires SweepFrame(db, db1, db.txns[t].debit, today)
    ensures t in db1.txns && db1.txns[t] == db.txns[t] && DebitReady(db1.accounts, db1.txns, t)
  {
  }

  /** The debit stage is the debit of the transaction on the swept database. */
  lemma {:induction false} StageInitIsDebit(db: Db, t: TxnNo, env: Env)
    requires Inv(db) && t in db.txns && db.txns[t].status == Init && ClockInRange(env.today)
    requires StageInit(db, t, env).Ok?
    ensures var x := db.txns[t];
            && x.debit in db.accounts && x.amount > 0 && Sweep(db, x.debit, env).Ok?
            && var db1 := Sweep(db, x.debit, env).value;
            && t in db1.txns && db1.txns[t] == x && x.debit in db1.accounts && x.debit in db1.books
            && DebitReady(db1.accounts, db1.txns, t)
            && CanDebit(db1.accounts[x.debit], db1.accounts[x.debit].balance, x.amount)
            && StageInit(db, t, env).value == DebitTxn(db1, t, DebitParts(db1, x.debit, x.amount, env.today), env.today)
  {
    var x := db.txns[t];
    assert TxnOk(db.accounts, db.txns, x);
    SweepKeepsInv(db, x.debit, env);
    var db1 := Sweep(db, x.debit, env).value;
    SweptReady(db, db1, t, env.today);
    PostThenMark(db1, t, DebitParts(db1, x.debit, x.amount, env.today), env.today);
  }

  lemma {:induction false} StageInitKeepsInv(db: Db, t: TxnNo, env: Env)
    requires Inv(db) && t in db.txns && db.txns[t].status == Init && ClockInRange(env.today)
    requires StageInit(db, t, env).Ok?
    ensures Inv(StageInit(db, t, env).value)
  {
    var a := db.txns[t].debit;
    StageInitIsDebit(db, t, env);
    SweepKeepsInv(db, a, env);
    var db1 := Sweep(db, a, env).value;
    BooksConsistent(db1, a);
    DebitPartsReady(db1, a, db.txns[t].amount, env.today);
    DebitKeepsInv(db1, t, DebitParts(db1, a, db.txns[t].amount, env.today), env.today);
  }

  /** The first stage of a refund reports a miss by the condition that failed, the amount last, and
      nothing else is reported that way. */
  lemma {:induction false} MissExplained(db: Db, t: TxnNo, env: Env)
    requires t in db.txns && db.txns[t].biz == Refund && db.txns[t].refundOf.Some? && db.txns[t].merchant != ""
    ensures var x, o := db.txns[t], db.txns[t].refundOf.value;
            var r := StageInit(db, t, env);
            var found := o in db.txns && db.txns[o].merchant == x.merchant;
            var credited := found && db.txns[o].biz == Transfer && db.txns[o].status == RecvSuccess;
            && (r == Err(TxnNotFound) <==> !found)
            && (r == Err(TxnStatusInvalid) <==> found && !credited)
            && (r == Err(RefundAmountExceeded) <==> credited && db.txns[o].refundable < x.amount)
  {
    DebitErrors(db, t, db.txns[t].debit, db.txns[t].amount, env);
  }

  lemma {:induction false} DebitErrors(db: Db, t: TxnNo, a: AccountNo, amount: int, env: Env)
    ensures var r := Debit(db, t, a, amount, env);
            r.Err? ==> r.error !in {TxnNotFound, TxnStatusInvalid, RefundAmountExceeded}
  {
  }

  /** In a ledger that is in order the only miss left is the amount: the first stage of a refund says
      so exactly when less is refundable than the refund asks for. */
  lemma {:induction false} RefundRefusedExactly(db: Db, t: TxnNo, env: Env)
    requires Inv(db) && t in db.txns && db.txns[t].biz == Refund
    ensures var x, r := db.txns[t], StageInit(db, t, env);
            && x.refundOf.Some? && x.refundOf.value in db.txns
            && (r == Err(RefundAmountExceeded) <==> db.txns[x.refundOf.value].refundable < x.amount)
            && r != Err(TxnNotFound) && r != Err(TxnStatusInvalid)
  {
    assert TxnOk(db.accounts, db.txns, db.txns[t]);
    DebitErrors(db, t, db.txns[t].debit, db.txns[t].amount, env);
  }

  lemma {:induction false} BooksConsistent(db: Db, a: AccountNo)
    requires Inv(db) && a in db.accounts
    ensures a in db.books && AccountOk(db.accounts[a], db.books[a]) && BooksOf(db, a) == db.books[a]
  {
    assert AccountOk(db.accounts[a], db.books[a]);
  }

  // ---------- credit ----------

  lemma {:induction false} TracePartsGood(trace: seq<BookChange>, amount: int)
    requires GoodTrace(trace, amount)
    ensures PartsTotal(TraceParts(trace)) == amount
    ensures Positive(TraceParts(trace)) && DistinctDates(TraceParts(trace))
  {
    TracePartsTotal(trace);
    forall p | p in TraceParts(trace)
      ensures p.amount > 0
    {
      var i :| 0 <= i < |trace| && TraceParts(trace)[i] == p;
      assert trace[i] in trace;
    }
    forall i, j | 0 <= i < j < |trace|
      ensures TraceParts(trace)[i].expireAt != TraceParts(trace)[j].expireAt
    {
      assert Before(trace[i].expireAt, trace[j].expireAt);
    }
  }

  lemma {:induction false} TracePartsTotal(trace: seq<BookChange>)
    requires forall c | c in trace :: c.delta < 0
    ensures PartsTotal(TraceParts(trace)) == ConsumedTotal(trace)
    decreases |trace|
  {
    if trace == [] {
    } else {
      TracePartsTotal(trace[1..]);
      assert trace[0] in trace;
      assert TraceParts(trace)[1..] == TraceParts(trace[1..]);
    }
  }

  lemma {:induction false} NoTrace(accounts: map<AccountNo, Account>, log: seq<AccountChange>,
                                   bookLog: seq<BookChange>, t: TxnNo, a: AccountNo)
    requires DeltasOk(accounts, log, bookLog) && !IsBook(accounts, a)
    ensures Trace(bookLog, t, a) == []
  {
    forall c | c in bookLog
      ensures !IsTrace(t, a)(c)
    {
      assert IsBook(accounts, c.account);
    }
    FilterNone(IsTrace(t, a), bookLog);
  }

  /** The parts the credit stage of a transfer applies. */
  function TransferParts(db: Db, t: TxnNo, x: Txn): seq<Part>
    requires x.credit in db.accounts
  {
    var trace := Trace(db.bookLog, t, x.debit);
    if x.scene == P2P && db.accounts[x.credit].bookEnabled && trace != [] then TraceParts(trace)
    else PlainParts(db.accounts[x.credit], x.amount, x.creditExpireAt)
  }

  lemma {:induction false} TransferTrace(db: Db, t: TxnNo)
    requires Inv(db) && t in db.txns && db.txns[t].status == PaySuccess
    ensures var x := db.txns[t];
            && CreditReady(db.accounts, db.txns, t) && x.amount > 0
            && var trace := Trace(db.bookLog, t, x.debit);
            if IsBook(db.accounts, x.debit) then GoodTrace(trace, x.amount) && trace != [] else trace == []
  {
    var x := db.txns[t];
    assert TxnOk(db.accounts, db.txns, x);
    if IsBook(db.accounts, x.debit) {
      var trace := Trace(db.bookLog, t, x.debit);
      assert GoodTrace(trace, x.amount);
    } else {
      NoTrace(db.accounts, db.accountLog, db.bookLog, t, x.debit);
    }
  }

  lemma {:induction false} TransferCreditSucceeds(db: Db, t: TxnNo, today: Date)
    requires Inv(db) && t in db.txns && db.txns[t].status == PaySuccess && db.txns[t].biz == Transfer
    ensures var x := db.txns[t];
            && x.credit in db.accounts
            && var parts := TransferParts(db, t, x);
            && TransferCredit(db, t, x, today) == Ok(Post(db, t, x.credit, x.amount, parts, today))
            && Positive(parts) && DistinctDates(parts)
            && (if db.accounts[x.credit].bookEnabled then PartsTotal(parts) == x.amount else parts == [])
            && (BookToBook(db.accounts, x) ==> parts == TraceParts(Trace(db.bookLog, t, x.debit)))
  {
    var x := db.txns[t];
    var trace := Trace(db.bookLog, t, x.debit);
    TransferTrace(db, t);
    if x.scene == P2P && db.accounts[x.credit].bookEnabled && trace != [] {
      TracePartsGood(trace, x.amount);
      assert TraceParts(trace) != [];
    } else if db.accounts[x.credit].bookEnabled {
      SumOne((p: Part) => p.amount, TransferParts(db, t, x)[0]);
    }
  }

  function MoveAmount(x: Txn, a: AccountNo): ((AccountNo, int)) -> int {
    (mv: (AccountNo, int)) => if mv.0 == a && mv.1 < 0 then x.amount else 0
  }

  /** current_debited counts the debit entries of the transaction itself. */
  lemma {:induction false} CurrentDebited(txns: map<TxnNo, Txn>, log: seq<AccountChange>, m: MerchantNo, o: TxnNo,
                                          a: AccountNo, t: TxnNo)
    requires t in txns && IsRefundOf(txns[t], m, o)
    ensures SumBy(DebitedAmountOf(txns, m, o, a, t), log) == SumBy(MoveAmount(txns[t], a), Moves(log, t))
    decreases |log|
  {
    if log == [] {
    } else {
      var n := |log| - 1;
      var e := log[n];
      CurrentDebited(txns, log[..n], m, o, a, t);
      assert log == log[..n] + [e];
      SumSnoc(DebitedAmountOf(txns, m, o, a, t), log[..n], e);
      if e.txn == t {
        var mv := (e.account, e.delta);
        assert Moves(log, t) == Moves(log[..n], t) + [mv];
        SumSnoc(MoveAmount(txns[t], a), Moves(log[..n], t), mv);
        assert DebitedAmount(txns, m, o, a)(e) == if e.account == a && e.delta < 0 then txns[t].amount else 0;
        assert MoveAmount(txns[t], a)(mv) == if mv.0 == a && mv.1 < 0 then txns[t].amount else 0;
        assert DebitedAmountOf(txns, m, o, a, t)(e) == DebitedAmount(txns, m, o, a)(e);
      } else {
        assert Moves(log, t) == Moves(log[..n], t);
      }
    }
  }

  /** The offset the slicing starts from: what the other debited refunds of the origin add up to. */
  ghost function OthersRefunded(txns: map<TxnNo, Txn>, t: TxnNo, o: TxnNo): int
    requires t in txns
  {
    Refunded(txns, o) - txns[t].amount
  }

  /** The statistics of a debited refund: its own amount, and with it no more than the origin's. */
  lemma {:induction false} RefundStatsExact(txns: map<TxnNo, Txn>, accounts: map<AccountNo, Account>,
                                            log: seq<AccountChange>, t: TxnNo)
    requires TxnsOk(accounts, txns) && JournalOk(txns, log) && QuotaOk(txns) && StatsOk(txns, log)
    requires t in txns && txns[t].biz == Refund && txns[t].status == PaySuccess
    ensures var x := txns[t];
            && x.refundOf.Some? && x.refundOf.value in txns
            && var o := x.refundOf.value;
            && RefundLink(x, txns[o]) && x.amount > 0
            && SumBy(DebitedAmount(txns, x.merchant, o, txns[o].credit), log) == Refunded(txns, o)
            && SumBy(DebitedAmountOf(txns, x.merchant, o, txns[o].credit, t), log) == x.amount
            && 0 <= OthersRefunded(txns, t, o)
            && Refunded(txns, o) <= txns[o].amount
  {
    var x := txns[t];
    assert TxnOk(accounts, txns, x);
    var o := x.refundOf.value;
    assert TxnOk(accounts, txns, txns[o]);
    assert QuotaKept(txns, o) && StatsAgree(txns, log, o);
    CurrentDebited(txns, log, x.merchant, o, txns[o].credit, t);
    assert MovesOk(txns, log, t);
    SumOne(MoveAmount(x, txns[o].credit), (x.debit, -x.amount));
    RefundedAtLeast(accounts, txns, o, t);
  }

  lemma {:induction false} RefundedAtLeast(accounts: map<AccountNo, Account>, txns: map<TxnNo, Txn>, o: TxnNo, t: TxnNo)
    requires TxnsOk(accounts, txns) && t in txns
    ensures RefundedBy(o)(txns[t]) <= Refunded(txns, o)
  {
    forall u | u in txns
      ensures RefundedBy(o)(txns[u]) >= 0
    {
      assert TxnOk(accounts, txns, txns[u]);
    }
    SumMapNonNegative(RefundedBy(o), txns);
  }

  /** A refund's credit stage finds its slice in the origin's trace. */
  lemma {:induction false} RefundPartsExact(db: Db, t: TxnNo, today: Date)
    requires Inv(db) && t in db.txns && db.txns[t].biz == Refund && db.txns[t].status == PaySuccess
    requires ClockInRange(today)
    requires IsBook(db.accounts, db.txns[t].credit)
    ensures var x := db.txns[t];
            && x.refundOf.Some? && x.refundOf.value in db.txns
            && var o := x.refundOf.value;
            && var trace := Trace(db.bookLog, o, db.txns[o].debit);
            && GoodTrace(trace, db.txns[o].amount)
            && 0 <= OthersRefunded(db.txns, t, o) && 0 < x.amount
            && var parts := RefundParts(trace, OthersRefunded(db.txns, t, o), x.amount, today);
            && RefundCreditParts(db, t, x, o, today) == Ok(parts)
            && parts != [] && Positive(parts) && PartsSorted(parts) && PartsTotal(parts) == x.amount
  {
    var x := db.txns[t];
    RefundStatsExact(db.txns, db.accounts, db.accountLog, t);
    var o := x.refundOf.value;
    var trace := Trace(db.bookLog, o, db.txns[o].debit);
    assert GoodTrace(trace, db.txns[o].amount);
    SliceOfTrace(db, t, x, o, today, OthersRefunded(db.txns, t, o));
  }

  lemma {:induction false} SliceOfTrace(db: Db, t: TxnNo, x: Txn, o: TxnNo, today: Date, offset: int)
    requires ClockInRange(today) && o in db.txns && RefundLink(x, db.txns[o])
    requires GoodTrace(Trace(db.bookLog, o, db.txns[o].debit), db.txns[o].amount)
    requires RefundStats(db, t, x.merchant, o, db.txns[o].credit) == (offset + x.amount, x.amount)
    requires 0 <= offset && 0 < x.amount && offset + x.amount <= db.txns[o].amount
    ensures var parts := RefundParts(Trace(db.bookLog, o, db.txns[o].debit), offset, x.amount, today);
            && RefundCreditParts(db, t, x, o, today) == Ok(parts)
            && parts != [] && Positive(parts) && PartsSorted(parts) && PartsTotal(parts) == x.amount
  {
    var trace := Trace(db.bookLog, o, db.txns[o].debit);
    RefundPartsGood(trace, db.txns[o].amount, offset, x.amount, today);
    assert trace != [];
  }

  function RefundPartsOf(db: Db, t: TxnNo, x: Txn, today: Date): seq<Part>
    requires x.credit in db.accounts && x.refundOf.Some?
  {
    if !db.accounts[x.credit].bookEnabled then []
    else
      match RefundCreditParts(db, t, x, x.refundOf.value, today)
      case Ok(parts) => parts
      case Err(_) => []
  }

  lemma {:induction false} RefundCreditSucceeds(db: Db, t: TxnNo, today: Date)
    requires Inv(db) && t in db.txns && db.txns[t].biz == Refund && db.txns[t].status == PaySuccess
    requires ClockInRange(today)
    ensures var x := db.txns[t];
            && x.credit in db.accounts && x.refundOf.Some?
            && var parts := RefundPartsOf(db, t, x, today);
            && RefundCredit(db, t, x, x.refundOf.value, today) == Ok(Post(db, t, x.credit, x.amount, parts, today))
            && Positive(parts) && DistinctDates(parts)
            && (if db.accounts[x.credit].bookEnabled then PartsTotal(parts) == x.amount else parts == [])
  {
    var x := db.txns[t];
    assert TxnOk(db.accounts, db.txns, x);
    if IsBook(db.accounts, x.credit) {
      RefundPartsExact(db, t, today);
      SortedIsDistinct(RefundPartsOf(db, t, x, today));
    }
  }

  function CreditPartsOf(db: Db, t: TxnNo, today: Date): seq<Part>
    requires t in db.txns && db.txns[t].credit in db.accounts
    requires db.txns[t].biz == Refund ==> db.txns[t].refundOf.Some?
  {
    if db.txns[t].biz == Refund then RefundPartsOf(db, t, db.txns[t], today) else TransferParts(db, t, db.txns[t])
  }

  /** No stranded money: once a transaction has been debited its credit stage cannot be refused,
      and it is the credit of the transaction. */
  lemma {:induction false} StagePaySucceeds(db: Db, t: TxnNo, env: Env)
    requires Inv(db) && t in db.txns && db.txns[t].status == PaySuccess && ClockInRange(env.today)
    ensures var x := db.txns[t];
            && CreditReady(db.accounts, db.txns, t)
            && (x.biz == Refund ==> x.refundOf.Some?)
            && var parts := CreditPartsOf(db, t, env.today);
            && StagePay(db, t, env) == Ok(CreditTxn(db, t, parts, env.today, db.webhooks))
            && Positive(parts) && DistinctDates(parts) && x.amount > 0
            && (if db.accounts[x.credit].bookEnabled then PartsTotal(parts) == x.amount else parts == [])
            && (BookToBook(db.accounts, x) ==> parts == TraceParts(Trace(db.bookLog, t, x.debit)))
  {
    var x := db.txns[t];
    TransferTrace(db, t);
    if x.biz == Refund {
      RefundCreditSucceeds(db, t, env.today);
    } else {
      TransferCreditSucceeds(db, t, env.today);
    }
    CreditOutbox(db.txns, t, db.webhooks, db.outbox);
  }

  lemma {:induction false} StagePayKeepsInv(db: Db, t: TxnNo, env: Env)
    requires Inv(db) && t in db.txns && db.txns[t].status == PaySuccess && ClockInRange(env.today)
    ensures StagePay(db, t, env).Ok? && Inv(StagePay(db, t, env).value)
  {
    StagePaySucceeds(db, t, env);
    var a := db.txns[t].credit;
    var parts := CreditPartsOf(db, t, env.today);
    BooksConsistent(db, a);
    CreditPostingOk(db.accounts[a], db.books[a], db.txns[t].amount, parts);
    CreditKeepsInv(db, t, parts, env.today, db.webhooks);
  }

  /** A stage that commits keeps the invariant; a debited transaction's stage always commits. */
  lemma {:induction false} StageKeepsInv(db: Db, t: TxnNo, expected: Status, env: Env)
    requires Inv(db) && ClockInRange(env.today)
    ensures var r := Stage(db, t, expected, env);
            && (r.Applied? ==> Inv(r.db))
            && (t in db.txns && expected == PaySuccess ==> !r.Rejected?)
  {
    if t in db.txns && db.txns[t].status == expected {
      if expected == Init {
        if StageInit(db, t, env).Ok? {
          StageInitKeepsInv(db, t, env);
        }
      } else if expected == PaySuccess {
        StagePayKeepsInv(db, t, env);
      }
    }
  }
}
