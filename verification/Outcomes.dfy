/** What a stage answers and what it leaves behind, in terms of balances, dates and the rows of the
    tables alone. */
module Outcomes {
  import opened Domain
  import opened Collections
  import opened Books
  import opened Fefo
  import opened Ledger
  import opened Invariants
  import opened Postings
  import opened Effects
  import opened Maintenance
  import opened Stages
  import opened Runs
  import opened Guarantees
  import opened Pipeline
  import opened Routing
  import opened Drains
  import opened Processors

  // ---------- debit ----------

  /** Once the sweep can run, a debit commits exactly when what it leaves of the available balance
      respects the account's floor; the account is then left with just that. */
  lemma {:induction false} DebitIffFloor(db: Db, t: TxnNo, a: AccountNo, amount: int, env: Env)
    requires Inv(db) && a in db.accounts && amount > 0 && ClockInRange(env.today) && Sweep(db, a, env).Ok?
    ensures var acc, left := db.accounts[a], AvailableBalance(db, a, env.today) - amount;
            var r := Debit(db, t, a, amount, env);
            && (r.Ok? <==> (Limited(acc) ==> left >= -Limit(acc)))
            && (r.Err? ==> r == Err(InsufficientBalance))
            && (r.Ok? ==> a in r.value.accounts && r.value.accounts[a].balance == left)
  {
    DebitRefinesPlainCheck(db, t, a, amount, env);
    SweepKeepsInv(db, a, env);
  }

  /** A book is swept on the day it expires, not before; what it held goes to the merchant's
      write-off account, and no other balance changes. */
  lemma {:induction false} ExpiryDay(db: Db, a: AccountNo, env: Env, d: Date)
    requires Inv(db) && IsBook(db.accounts, a) && ClockInRange(env.today) && Sweep(db, a, env).Ok?
    ensures var db1, m := Sweep(db, a, env).value, db.accounts[a].merchant;
            && a in db.books && a in db1.books && a in db1.accounts
            && BalanceAt(db1.books[a], d)
               == (if d != NO_EXPIRE && d <= env.today then 0 else BalanceAt(db.books[a], d))
            && db1.accounts[a].balance == Total(db1.books[a])
            && (db1 != db ==> m in db1.merchants && WrittenOff(db, db1, a, db1.merchants[m]))
  {
    SweepKeepsInv(db, a, env);
    SweptBooks(db, a, env);
    BooksConsistent(db, a);
    var db1 := Sweep(db, a, env).value;
    BooksConsistent(db1, a);
    SweepOnBooks(db.books[a], env.today);
    if db1 != db {
      SweptBalances(db, a, env);
    }
  }

  /** The only balances that differ are those of `a` and `w`, and `w` has gained what `a` has lost. */
  ghost predicate WrittenOff(db: Db, db1: Db, a: AccountNo, w: AccountNo) {
    && w != a && w in db1.accounts && db1.accounts[w].merchant == BalanceOwner(db, a)
    && BalanceOf(db1.accounts, a) + BalanceOf(db1.accounts, w) == BalanceOf(db.accounts, a) + BalanceOf(db.accounts, w)
    && forall b | b != a && b != w :: BalanceOf(db1.accounts, b) == BalanceOf(db.accounts, b)
  }

  ghost function BalanceOwner(db: Db, a: AccountNo): MerchantNo {
    if a in db.accounts then db.accounts[a].merchant else ""
  }

  lemma {:induction false} SweptBalances(db: Db, a: AccountNo, env: Env)
    requires Inv(db) && IsBook(db.accounts, a) && Sweep(db, a, env).Ok? && Sweep(db, a, env).value != db
    ensures var db1, m := Sweep(db, a, env).value, db.accounts[a].merchant;
            m in db1.merchants && WrittenOff(db, db1, a, db1.merchants[m])
  {
    var m := db.accounts[a].merchant;
    EnsureKeepsInv(db, m, env.newAccount);
    var (db1, w) := EnsureWriteoff(db, m, env.newAccount).value;
    BooksConsistent(db, a);
    SameBalancesOpened(db, m, env.newAccount);
    WriteOffMoves(db1, a, w, env.writeoffTxn, env.today);
  }

  lemma {:induction false} WriteOffMoves(db: Db, a: AccountNo, w: AccountNo, t: TxnNo, today: Date)
    requires a in db.accounts && w in db.accounts && a in db.books && w in db.books && a != w
    requires !db.accounts[w].bookEnabled && db.accounts[w].merchant == db.accounts[a].merchant
    ensures WrittenOff(db, WriteOff(db, a, w, t, today), a, w)
    ensures WriteOff(db, a, w, t, today).merchants == db.merchants
  {
    WriteOffTables(db, a, w, t, today);
  }

  /** Opening the write-off account changes no balance. */
  lemma {:induction false} SameBalancesOpened(db: Db, m: MerchantNo, newNo: Option<AccountNo>)
    requires EnsureWriteoff(db, m, newNo).Ok?
    ensures var (db1, w) := EnsureWriteoff(db, m, newNo).value;
            && m in db1.merchants && db1.merchants[m] == w
            && forall b :: BalanceOf(db1.accounts, b) == BalanceOf(db.accounts, b)
  {
  }

  /** With fresh numbers the sweep always runs. */
  lemma {:induction false} FreshSweepRuns(db: Db, a: AccountNo, env: Env)
    requires Inv(db) && a in db.accounts && FreshEnv(db, env)
    ensures Sweep(db, a, env).Ok?
  {
    var m := db.accounts[a].merchant;
    assert WriteoffOk(db.accounts, m, db.merchants[m]);
  }

  /** The whole answer of the debit stage, given fresh numbers: refused for want of accounts, of
      refundable money or of money, in that order, and otherwise committed. */
  lemma {:induction false} DebitStageOutcome(db: Db, t: TxnNo, env: Env)
    requires Inv(db) && ClockInRange(env.today) && FreshEnv(db, env) && t in db.txns && db.txns[t].status == Init
    ensures var x, r := db.txns[t], Stage(db, t, Init, env);
            if x.debit == "" then r == Rejected(AccountResolveFailed)
            else
              && x.debit in db.accounts && (x.biz == Refund ==> x.refundOf.Some? && x.refundOf.value in db.txns)
              && var acc, left := db.accounts[x.debit], AvailableBalance(db, x.debit, env.today) - x.amount;
              if x.biz == Refund && db.txns[x.refundOf.value].refundable < x.amount
              then r == Rejected(RefundAmountExceeded)
              else if Limited(acc) && left < -Limit(acc) then r == Rejected(InsufficientBalance)
              else r.Applied? && x.debit in r.db.accounts && r.db.accounts[x.debit].balance == left
  {
    var x := db.txns[t];
    assert TxnOk(db.accounts, db.txns, x);
    if x.debit != "" {
      FreshSweepRuns(db, x.debit, env);
      DebitIffFloor(db, t, x.debit, x.amount, env);
    }
  }

  // ---------- credit ----------

  /** A credit with no trace to replay moves one book: that of the date the request named, or the one
      without expiry, so that money credited without a date is available on every day. */
  lemma {:induction false} PlainCredit(db: Db, t: TxnNo, env: Env, d: Date, day: Date)
    requires Inv(db) && t in db.txns && db.txns[t].status == PaySuccess && ClockInRange(env.today)
    requires db.txns[t].biz == Transfer && IsBook(db.accounts, db.txns[t].credit)
    requires db.txns[t].scene == P2P ==> !IsBook(db.accounts, db.txns[t].debit)
    ensures var x, r := db.txns[t], StagePay(db, t, env);
            && r.Ok? && x.credit in db.books && x.credit in r.value.books && x.credit in r.value.accounts
            && var named := x.creditExpireAt == Some(d) || (x.creditExpireAt == None && d == NO_EXPIRE);
            && BalanceAt(r.value.books[x.credit], d)
               == BalanceAt(db.books[x.credit], d) + (if named then x.amount else 0)
            && AvailableBalance(r.value, x.credit, day) == AvailableBalance(db, x.credit, day)
               + (if x.creditExpireAt.Some? && x.creditExpireAt.value != NO_EXPIRE && x.creditExpireAt.value <= day
                  then 0 else x.amount)
  {
    var x := db.txns[t];
    var a, parts := x.credit, CreditPartsOf(db, t, env.today);
    StagePaySucceeds(db, t, env);
    TransferTrace(db, t);
    BooksConsistent(db, a);
    CreditTables(db, t, parts, env.today, db.webhooks);
    ApplyBalance(db.books[a], parts, d);
    ApplyAvailable(db.books[a], parts, day);
    SumOne(AmountOn(d), parts[0]);
    SumOne(UsableAmount(day), parts[0]);
    assert parts == [parts[0]];
  }

  /** A credit stage adds the amount to the balance of the credited account and changes no other. */
  lemma {:induction false} CreditMoves(db: Db, t: TxnNo, env: Env, a: AccountNo)
    requires Inv(db) && t in db.txns && db.txns[t].status == PaySuccess && ClockInRange(env.today)
    ensures var x, r := db.txns[t], StagePay(db, t, env);
            && r.Ok?
            && BalanceOf(r.value.accounts, a) == BalanceOf(db.accounts, a) + (if a == x.credit then x.amount else 0)
  {
    StagePaySucceeds(db, t, env);
    BooksConsistent(db, db.txns[t].credit);
    CreditTables(db, t, CreditPartsOf(db, t, env.today), env.today, db.webhooks);
  }

  /** The webhook setting of the moment decides: the credit commits an event exactly if it is on. */
  lemma {:induction false} WebhookGoverns(db: Db, t: TxnNo, env: Env, on: bool)
    requires Inv(db) && t in db.txns && db.txns[t].status == PaySuccess && ClockInRange(env.today)
    ensures var db1 := SetWebhook(db, db.txns[t].merchant, on);
            && StagePay(db1, t, env).Ok?
            && (HasEvent(StagePay(db1, t, env).value.outbox, t) <==> on)
  {
    var db1 := SetWebhook(db, db.txns[t].merchant, on);
    MoneyFrom(db1, db.merchants, db.accounts, db.books, db.accountLog, db.bookLog);
    RecordsFrom(db1, db.accounts, db.txns, db.accountLog, db.bookLog, db.outbox);
    StagePaySucceeds(db1, t, env);
    assert forall e | e in db.outbox :: e.txn != t by {
      forall e | e in db.outbox
        ensures e.txn != t
      {
        assert EventOk(db.txns, e);
      }
    }
  }

  /** A stage is routed by the account it moves: by the key a transaction is sharded by for the first
      stage its amount is taken, by that for the second it is added. */
  lemma {:induction false} RoutedByMoved(db: Db, t: TxnNo, s: Status, env: Env)
    requires Inv(db) && ClockInRange(env.today) && Stage(db, t, s, env).Applied?
    ensures var a, db1 := RouteKey(db.txns, s, t), Stage(db, t, s, env).db;
            && a in db.accounts && a in db1.accounts
            && db1.accounts[a].balance == (if s == Init then AvailableBalance(db, a, env.today) - db.txns[t].amount
                                           else db.accounts[a].balance + db.txns[t].amount)
  {
    RouteIsAccount(db.accounts, db.txns, s, t);
    if s == Init {
      StageInitIsDebit(db, t, env);
      DebitIffFloor(db, t, db.txns[t].debit, db.txns[t].amount, env);
    } else {
      StagePaySucceeds(db, t, env);
      CreditMoves(db, t, env, db.txns[t].credit);
    }
  }

  /** A list of parts is credited exactly if it names at least one book, each once, with positive
      amounts that add up; then books, balance and logs still agree. */
  lemma {:induction false} PartsAcceptedIff(db: Db, t: TxnNo, a: AccountNo, amount: int, parts: seq<Part>, day: Date,
                                            refusal: Error)
    requires MoneyOk(db) && a in db.accounts && amount > 0
    ensures var r := CreditByParts(db, t, a, amount, parts, day, refusal);
            && (r.Ok? <==>
                  && db.accounts[a].bookEnabled && parts != [] && (forall p | p in parts :: p.amount > 0)
                  && (forall i, j | 0 <= i < j < |parts| :: parts[i].expireAt != parts[j].expireAt)
                  && PartsTotal(parts) == amount)
            && (r.Err? ==> r == Err(refusal))
            && (r.Ok? ==> MoneyOk(r.value) && a in r.value.accounts
                          && r.value.accounts[a].balance == db.accounts[a].balance + amount)
  {
    var r := CreditByParts(db, t, a, amount, parts, day, refusal);
    if r.Ok? {
      assert AccountOk(db.accounts[a], db.books[a]);
      CreditPostingOk(db.accounts[a], db.books[a], amount, parts);
      PostedMoney(db, r.value, t, a, amount, parts, day);
    }
  }

  // ---------- what a refused stage leads to ----------

  /** What can go wrong with the numbers a sweep draws. */
  const OUTSIDE := {InvalidMerchantNo, CodeAllocatorUnavailable, AccountNoExists, Infrastructure}

  lemma {:induction false} SweepErrors(db: Db, a: AccountNo, env: Env)
    requires Inv(db) && a in db.accounts && Sweep(db, a, env).Err?
    ensures Sweep(db, a, env).error in OUTSIDE
  {
    var m := db.accounts[a].merchant;
    if m in db.merchants {
      assert WriteoffOk(db.accounts, m, db.merchants[m]);
    }
  }

  /** A stage that was refused because of what it drew from outside loses nothing: if it would commit
      with other numbers on the same day, the refusal leaves the database as it was and nobody means
      to fail the transaction, so the next try with such numbers commits. */
  lemma {:induction false} OutsideRefusal(s: System, t: TxnNo, env: Env, other: Env)
    requires Inv(s.db) && ClockInRange(env.today) && other.today == env.today
    requires Stage(s.db, t, Init, env).Rejected? && !Stage(s.db, t, Init, other).Rejected?
    ensures Processed(s.db, t, Init, env) == s.db && Step(s, StageTried(t, Init, env)) == s
    ensures Stage(Step(s, StageTried(t, Init, env)).db, t, Init, other).Applied?
  {
    RefusedAndNot(s.db, t, env, other);
    StageOutside(s.db, t, env, other);
    RetriedErrors(StageInit(s.db, t, env).error);
    NothingLost(s, t, env);
  }

  lemma {:induction false} RefusedAndNot(db: Db, t: TxnNo, env: Env, other: Env)
    requires Stage(db, t, Init, env).Rejected? && !Stage(db, t, Init, other).Rejected?
    ensures t in db.txns && db.txns[t].status == Init && StageInit(db, t, env).Err? && StageInit(db, t, other).Ok?
    ensures Stage(db, t, Init, other).Applied?
  {
  }

  lemma {:induction false} NothingLost(s: System, t: TxnNo, env: Env)
    requires t in s.db.txns && s.db.txns[t].status == Init
    requires StageInit(s.db, t, env).Err? && !ShouldFail(StageInit(s.db, t, env).error)
    ensures Processed(s.db, t, Init, env) == s.db && Step(s, StageTried(t, Init, env)) == s
  {
  }

  lemma {:induction false} StageOutside(db: Db, t: TxnNo, env: Env, other: Env)
    requires Inv(db) && t in db.txns && ClockInRange(env.today) && other.today == env.today
    requires StageInit(db, t, env).Err? && StageInit(db, t, other).Ok?
    ensures StageInit(db, t, env).error in OUTSIDE
  {
    assert TxnOk(db.accounts, db.txns, db.txns[t]);
    DebitOutside(db, t, db.txns[t].debit, db.txns[t].amount, env, other);
  }

  /** What a debit can be refused for with some numbers and not with others. */
  lemma {:induction false} DebitOutside(db: Db, t: TxnNo, a: AccountNo, amount: int, env: Env, other: Env)
    requires Inv(db) && ClockInRange(env.today) && other.today == env.today
    requires Debit(db, t, a, amount, env).Err? && Debit(db, t, a, amount, other).Ok?
    ensures Debit(db, t, a, amount, env).error in OUTSIDE
  {
    if Sweep(db, a, env).Ok? {
      DebitIffFloor(db, t, a, amount, env);
      DebitIffFloor(db, t, a, amount, other);
    } else {
      SweepErrors(db, a, env);
    }
  }

  /** A stage that was refused although its numbers were fresh was refused because of the tables, and
      fails the transaction; nothing else changes. */
  lemma {:induction false} TableRefusal(s: System, t: TxnNo, env: Env)
    requires Inv(s.db) && ClockInRange(env.today) && FreshEnv(s.db, env) && t in s.db.txns
    requires Stage(s.db, t, Init, env).Rejected?
    ensures var failed := s.db.(txns := s.db.txns[t := s.db.txns[t].(status := Failed)]);
            && Processed(s.db, t, Init, env) == failed
            && Step(Step(s, StageTried(t, Init, env)), FailWritten(t, Init)).db == failed
  {
    FreshEnvSuffices(s.db, t, Init, env);
  }

  /** A stage that commits is what processing it does: the transaction has moved on. */
  lemma {:induction false} ProcessedMovesOn(db: Db, t: TxnNo, s: Status, env: Env)
    requires Inv(db) && ClockInRange(env.today) && Stage(db, t, s, env).Applied?
    ensures var db1 := Processed(db, t, s, env);
            && Inv(db1) && t in db1.txns && db1.txns[t].status == (if s == Init then PaySuccess else RecvSuccess)
  {
    StageKeepsInv(db, t, s, env);
    StageRows(db, t, s, env);
    StageStatuses(db, t, s, env, t);
  }

  /** Whatever the tables look like, a debited refund is never failed: it waits to be retried. A
      debited transfer whose credit is refused is failed. */
  lemma {:induction false} CreditRefusal(s: System, t: TxnNo, env: Env)
    requires t in s.db.txns && Stage(s.db, t, PaySuccess, env).Rejected?
    ensures var x, s1 := s.db.txns[t], Step(s, StageTried(t, PaySuccess, env));
            if x.biz == Refund then Processed(s.db, t, PaySuccess, env) == s.db && s1 == s
            else
              && Processed(s.db, t, PaySuccess, env) == s.db.(txns := s.db.txns[t := x.(status := Failed)])
              && (t, PaySuccess) in s1.tickets
  {
  }

  /** The errors that leave a transaction open are exactly those another try may clear. */
  lemma {:induction false} RetriedErrors(e: Error)
    ensures !ShouldFail(e) <==>
            e in {DuplicateOutTradeNo, AccountNoExists, InvalidMerchantNo, CodeAllocatorUnavailable, Infrastructure}
  {
  }
}
