/** What the ledger guarantees in every run, said in terms of balances, statuses and entries. */
module Guarantees {
  import opened Domain
  import opened Collections
  import opened Books
  import opened Fefo
  import opened Ledger
  import opened Invariants
  import opened Frames
  import opened Effects
  import opened Stages
  import opened Runs

  /** Zero-sum: a merchant's balances plus its money in flight always add up to nothing. */
  lemma {:induction false} ZeroSumAlways(db: Db, m: MerchantNo)
    requires Reachable(db)
    ensures SumMap(BalanceIn(m), db.accounts) + SumMap(InFlight(m), db.txns) == 0
  {
    ReachableInv(db);
    assert Balanced(db.accounts, db.txns, m);
  }

  /** Book agreement: balance and books agree, at most one book a date, exactly one without expiry. */
  lemma {:induction false} BooksAgreeAlways(db: Db, a: AccountNo)
    requires Reachable(db) && IsBook(db.accounts, a)
    ensures a in db.books && db.accounts[a].balance == Total(db.books[a])
    ensures forall i, j | 0 <= i < j < |db.books[a]| :: db.books[a][i].expireAt != db.books[a][j].expireAt
    ensures exists i | 0 <= i < |db.books[a]| :: db.books[a][i].expireAt == NO_EXPIRE
  {
    ReachableInv(db);
    BooksConsistent(db, a);
    forall i, j | 0 <= i < j < |db.books[a]|
      ensures db.books[a][i].expireAt != db.books[a][j].expireAt
    {
      assert Before(db.books[a][i].expireAt, db.books[a][j].expireAt);
    }
    var b :| b in db.books[a] && b.expireAt == NO_EXPIRE;
  }

  /** Overdraft floor: neither the balance nor what would be left of it after any expiry is below
      the account's limit. */
  lemma {:induction false} FloorAlways(db: Db, a: AccountNo, today: Date)
    requires Reachable(db) && a in db.accounts && Limited(db.accounts[a])
    ensures db.accounts[a].balance >= -Limit(db.accounts[a])
    ensures AvailableBalance(db, a, today) >= -Limit(db.accounts[a])
    ensures IsBook(db.accounts, a) ==>
              && a in db.books && DatedNonNegative(db.books[a])
              && BalanceAt(db.books[a], NO_EXPIRE) >= -Limit(db.accounts[a])
  {
    ReachableInv(db);
    BooksConsistent(db, a);
    FloorHolds(db.accounts[a], db.books[a]);
    if db.accounts[a].bookEnabled {
      var bs := db.books[a];
      var swept := ApplyParts(bs, SweepParts(bs, today));
      SweepOnBooks(bs, today);
      SweptIsAvailable(bs, today);
      ApplySorted(bs, SweepParts(bs, today));
      DatedMembers(swept);
      BooksAboveNoExpire(swept);
    }
  }

  /** First expiring, first out: from every reachable state, among all ways to pay the amount from
      the books that are usable today, the debit stage leaves the least money expiring by every date. */
  lemma {:induction false} FefoAlways(db: Db, t: TxnNo, env: Env, parts: seq<Part>, d: Date)
    requires Reachable(db) && t in db.txns && db.txns[t].status == Init && ClockInRange(env.today)
    requires StageInit(db, t, env).Ok? && IsBook(db.accounts, db.txns[t].debit) && db.txns[t].debit in db.books
    requires Pays(db.books[db.txns[t].debit], parts, env.today, db.txns[t].amount)
    ensures var a, amount := db.txns[t].debit, db.txns[t].amount;
            var bs, books1 := db.books[a], StageInit(db, t, env).value.books;
            && a in books1
            && ExpiringBy(books1[a], env.today, d) <= ExpiringBy(ApplyParts(bs, parts), env.today, d)
            && Sweep(db, a, env).Ok? && a in Sweep(db, a, env).value.accounts && amount > 0
            && var drawn := DebitParts(Sweep(db, a, env).value, a, amount, env.today);
            && Pays(bs, drawn, env.today, amount)
            && ExpiringBy(books1[a], env.today, d) == ExpiringBy(ApplyParts(bs, drawn), env.today, d)
  {
    var a, amount := db.txns[t].debit, db.txns[t].amount;
    var bs := db.books[a];
    ReachableInv(db);
    StageInitIsDebit(db, t, env);
    SweepKeepsInv(db, a, env);
    SweptBooks(db, a, env);
    BooksConsistent(db, a);
    var db1 := Sweep(db, a, env).value;
    BooksConsistent(db1, a);
    var drawn := DebitParts(db1, a, amount, env.today);
    DebitTables(db1, t, drawn, env.today);
    FefoSwept(bs, env.today, amount, parts, d);
  }

  /** The logs are the history: replayed from zero they give every balance and every book, and
      what a transaction did to the books of an account is what it did to the account. */
  lemma {:induction false} LogsReplayAlways(db: Db, a: AccountNo, d: Date, t: TxnNo)
    requires Reachable(db)
    ensures Chained(db.accountLog) && BooksChained(db.bookLog)
    ensures SumBy(DeltaOn(a), db.accountLog) == BalanceOf(db.accounts, a)
    ensures SumBy(BookDeltaOn(a, d), db.bookLog) == BookBalance(db.books, a, d)
    ensures IsBook(db.accounts, a) ==> SumBy(BookDelta(t, a), db.bookLog) == SumBy(AccountDelta(t, a), db.accountLog)
  {
    ReachableInv(db);
    Replay(db.accountLog, a);
    ReplayBook(db.bookLog, a, d);
    assert LogEnds(db.accounts, db.accountLog, a) && BookLogEnds(db.books, db.bookLog, a, d);
    if IsBook(db.accounts, a) {
      assert DeltasAgree(db.accountLog, db.bookLog, t, a);
    }
  }

  /** Exactly once: however often its stages are tried, a transaction has moved its debit account
      once if debited, its credit account once if credited, and has at most one event. */
  lemma {:induction false} ExactlyOnceAlways(db: Db, t: TxnNo)
    requires Reachable(db)
    ensures Moves(db.accountLog, t) == Expected(db.txns, t)
    ensures forall i, j | 0 <= i < j < |db.outbox| :: !(db.outbox[i].txn == t && db.outbox[j].txn == t)
    ensures forall e | e in db.outbox && e.txn == t :: t in db.txns && db.txns[t].status == RecvSuccess
  {
    ReachableInv(db);
    assert MovesOk(db.txns, db.accountLog, t);
    forall e | e in db.outbox && e.txn == t
      ensures t in db.txns && db.txns[t].status == RecvSuccess
    {
      assert EventOk(db.txns, e);
    }
  }

  /** Refund quota: refundable and debited refunds add up to the transfer's amount. */
  lemma {:induction false} QuotaAlways(db: Db, o: TxnNo)
    requires Reachable(db) && o in db.txns
    ensures db.txns[o].refundable >= 0
    ensures db.txns[o].biz == Transfer && db.txns[o].scene != ExpireWriteoff ==>
              db.txns[o].refundable + Refunded(db.txns, o) == db.txns[o].amount
  {
    ReachableInv(db);
    assert TxnOk(db.accounts, db.txns, db.txns[o]);
    if db.txns[o].biz == Transfer {
      assert QuotaKept(db.txns, o);
    }
  }

  /** A finished book-to-book P2P transfer credited, date by date, what it had debited. */
  lemma {:induction false} ProfileAlways(db: Db, t: TxnNo, d: Date)
    requires Reachable(db) && t in db.txns && db.txns[t].status == RecvSuccess && BookToBook(db.accounts, db.txns[t])
    ensures SumBy(CreditOn(t, db.txns[t].credit, d), db.bookLog) == SumBy(DebitOn(t, db.txns[t].debit, d), db.bookLog)
  {
    ReachableInv(db);
    assert ProfileKept(db.bookLog, t, db.txns[t].debit, db.txns[t].credit);
  }

  /** No stranded money: in every reachable state, a debited transaction's credit stage commits
      whenever it is tried, and takes it to RECV_SUCCESS. */
  lemma {:induction false} NoStrandedMoney(db: Db, t: TxnNo, env: Env)
    requires Reachable(db) && ClockInRange(env.today) && t in db.txns && db.txns[t].status == PaySuccess
    ensures var r := Stage(db, t, PaySuccess, env);
            r.Applied? && t in r.db.txns && r.db.txns[t].status == RecvSuccess
  {
    ReachableInv(db);
    StagePayRows(db, t, env);
  }

  /** A FAILED transaction never moved anything, in the accounts or in the books. */
  lemma {:induction false} FailedMovedNothing(db: Db, t: TxnNo)
    requires Reachable(db) && t in db.txns && db.txns[t].status == Failed
    ensures forall e | e in db.accountLog :: e.txn != t
    ensures forall c | c in db.bookLog :: c.txn != t
  {
    ReachableInv(db);
    assert MovesOk(db.txns, db.accountLog, t);
    NoMoves(db.accountLog, t);
    NoEntriesYet(db.txns, db.bookLog, t);
  }

  lemma {:induction false} NoMoves(log: seq<AccountChange>, t: TxnNo)
    requires Moves(log, t) == []
    ensures forall e | e in log :: e.txn != t
  {
    if log == [] {
    } else {
      var n := |log| - 1;
      NoMoves(log[..n], t);
      assert log == log[..n] + [log[n]];
    }
  }

  // ---------- over time ----------

  /** Where a status can get to in any number of steps, once a failure needs INIT. */
  predicate Reaches(from: Status, to: Status) {
    || from == to
    || from == Init
    || (from == PaySuccess && to == RecvSuccess)
  }

  /** Progress is never undone: later, a transaction is still there on the same terms; debited
      stays debited, credited stays credited, and no late failure reaches it past INIT. */
  lemma {:induction false} ProgressIsKept(run: seq<Event>, more: seq<Event>, t: TxnNo)
    requires AllLegal(run + more) && t in Run(run).db.txns
    ensures var later := Run(run + more).db.txns;
            && t in later && SameTerms(Run(run).db.txns[t], later[t])
            && Reaches(Run(run).db.txns[t].status, later[t].status)
    decreases |more|
  {
    if more == [] {
      assert run + more == run;
    } else {
      var n := |more| - 1;
      RunExtends(run, more);
      ProgressIsKept(run, more[..n], t);
      RunsKeepInv(run + more[..n]);
      StepProgress(Run(run + more[..n]), more[n], t);
    }
  }

  lemma {:induction false} RunExtends(run: seq<Event>, more: seq<Event>)
    requires more != [] && AllLegal(run + more)
    ensures var n := |more| - 1;
            && AllLegal(run + more[..n]) && Legal(more[n])
            && Run(run + more) == Step(Run(run + more[..n]), more[n])
  {
    var n := |more| - 1;
    var before := run + more[..n];
    assert run + more == before + [more[n]] && (run + more)[..|before|] == before;
    assert forall e | e in before :: e in run + more;
    assert more[n] in run + more;
  }

  lemma {:induction false} StepProgress(s: System, e: Event, t: TxnNo)
    requires SystemOk(s) && Legal(e) && t in s.db.txns
    ensures var later := Step(s, e).db.txns;
            && t in later && SameTerms(s.db.txns[t], later[t])
            && (s.db.txns[t].status == Init || Reaches(s.db.txns[t].status, later[t].status))
  {
    StepRows(s, e);
    assert RowStep(s.db.txns, t, Step(s, e).db.txns[t]);
  }

  // ---------- events ----------

  predicate HasEvent(outbox: seq<OutboxEvent>, t: TxnNo) {
    exists e | e in outbox :: e.txn == t
  }

  /** In `db`, event `e` commits the credit of `t` while its merchant's webhook is enabled. */
  predicate Notifies(db: Db, e: Event, t: TxnNo) {
    && e.StageTried? && e.expected == PaySuccess && e.txn == t
    && t in db.txns && db.txns[t].status == PaySuccess && db.txns[t].merchant in db.webhooks
  }

  /** Some event of the run did. */
  ghost predicate Notified(run: seq<Event>, t: TxnNo) {
    run != [] &&
    var n := |run| - 1;
    Notified(run[..n], t) || Notifies(Run(run[..n]).db, run[n], t)
  }

  lemma {:induction false} DebitKeepsOutbox(db: Db, t: TxnNo, env: Env)
    requires Inv(db) && t in db.txns && db.txns[t].status == Init && ClockInRange(env.today)
    requires StageInit(db, t, env).Ok?
    ensures StageInit(db, t, env).value.outbox == db.outbox
  {
    StageInitIsDebit(db, t, env);
    SweepKeepsInv(db, db.txns[t].debit, env);
    var swept := Sweep(db, db.txns[t].debit, env).value;
    DebitTables(swept, t, DebitParts(swept, db.txns[t].debit, db.txns[t].amount, env.today), env.today);
  }

  lemma {:induction false} CreditEmits(db: Db, t: TxnNo, env: Env)
    requires Inv(db) && t in db.txns && db.txns[t].status == PaySuccess && ClockInRange(env.today)
    ensures StagePay(db, t, env).Ok?
    ensures StagePay(db, t, env).value.outbox == AfterEmit(db.txns, t, db.webhooks, db.outbox)
  {
    StagePaySucceeds(db, t, env);
  }

  lemma {:induction false} EmittedFor(txns: map<TxnNo, Txn>, t: TxnNo, webhooks: set<MerchantNo>,
                                      outbox: seq<OutboxEvent>, u: TxnNo)
    requires t in txns
    ensures var emitted := u == t && txns[t].merchant in webhooks;
            HasEvent(AfterEmit(txns, t, webhooks, outbox), u) <==> HasEvent(outbox, u) || emitted
  {
    var after := AfterEmit(txns, t, webhooks, outbox);
    assert forall e | e in outbox :: e in after;
    if txns[t].merchant in webhooks {
      assert after[|outbox|] in after;
    }
  }

  lemma {:induction false} StepEvents(s: System, e: Event, t: TxnNo)
    requires SystemOk(s) && Legal(e)
    ensures HasEvent(Step(s, e).db.outbox, t) <==> HasEvent(s.db.outbox, t) || Notifies(s.db, e, t)
  {
    if !e.StageTried? {
      QuietStep(s, e);
    } else if e.txn in s.db.txns && s.db.txns[e.txn].status == e.expected {
      if e.expected == Init && StageInit(s.db, e.txn, e.env).Ok? {
        DebitKeepsOutbox(s.db, e.txn, e.env);
      } else if e.expected == PaySuccess {
        CreditEmits(s.db, e.txn, e.env);
        EmittedFor(s.db.txns, e.txn, s.db.webhooks, s.db.outbox, t);
      }
    }
  }

  lemma {:induction false} EventIffNotified(run: seq<Event>, t: TxnNo)
    requires AllLegal(run)
    ensures HasEvent(Run(run).db.outbox, t) <==> Notified(run, t)
  {
    if run == [] {
    } else {
      var n := |run| - 1;
      assert forall e | e in run[..n] :: e in run;
      EventIffNotified(run[..n], t);
      RunsKeepInv(run[..n]);
      StepEvents(Run(run[..n]), run[n], t);
    }
  }

  /** Exactly one event for a transaction that was credited while its merchant's webhook was enabled,
      and none for any other. */
  lemma {:induction false} OneEventIffNotified(run: seq<Event>, t: TxnNo)
    requires AllLegal(run)
    ensures |Filter((e: OutboxEvent) => e.txn == t, Run(run).db.outbox)| == if Notified(run, t) then 1 else 0
  {
    EventIffNotified(run, t);
    ExactlyOnceAlways(Run(run).db, t);
    CountEvents(Run(run).db.outbox, t);
  }

  lemma {:induction false} CountEvents(outbox: seq<OutboxEvent>, t: TxnNo)
    requires forall i, j | 0 <= i < j < |outbox| :: !(outbox[i].txn == t && outbox[j].txn == t)
    ensures |Filter((e: OutboxEvent) => e.txn == t, outbox)| == if HasEvent(outbox, t) then 1 else 0
  {
    if outbox == [] {
    } else {
      assert forall e | e in outbox :: e == outbox[0] || e in outbox[1..];
      assert forall e | e in outbox[1..] :: e in outbox;
      CountEvents(outbox[1..], t);
      if outbox[0].txn == t {
        assert outbox[0] in outbox;
        assert !HasEvent(outbox[1..], t);
      }
    }
  }
}
