/** Every run of the ledger: submissions, stages tried by any number of workers in any order and
    any number of times, failures written late, and administration, all interleaved. */
module Runs {
  import opened Domain
  import opened Ledger
  import opened Invariants
  import opened Frames
  import opened Effects
  import opened Maintenance
  import opened Stages

  datatype Event =
    | AccountOpened(no: AccountNo, account: Account)
    | MerchantOpened(merchant: MerchantNo, budget: AccountNo, receivable: AccountNo, writeoff: AccountNo)
    | CapabilitiesSet(no: AccountNo, debitOut: bool, creditIn: bool, transfer: bool)
    | WebhookSet(merchant: MerchantNo, enabled: bool)
    | Validated(request: Request)
    | Inserted(txn: TxnNo, row: Txn)
    | StageTried(txn: TxnNo, expected: Status, env: Env)
    | FailWritten(txn: TxnNo, from: Status)

  /** The database; the failures some worker has decided to write, and the rows some submission has
      checked, each of which may be written at any later time, or never. */
  datatype System = System(db: Db, tickets: set<(TxnNo, Status)>, prepared: set<Txn>)

  const START := System(EMPTY, {}, {})

  /** shouldFailOnError. */
  predicate ShouldFail(e: Error) {
    match e
    case TxnNotFound | TxnStatusInvalid | AccountResolveFailed | AccountForbidDebit | AccountForbidCredit
      | AccountForbidTransfer | InsufficientBalance | RefundAmountExceeded | RefundOriginBookTraceMissing => true
    case _ => false
  }

  /** Whether the processor answers a rejected stage of `x` with a failure. */
  predicate FailsTxn(x: Txn, expected: Status, e: Error) {
    ShouldFail(e) && !(expected == PaySuccess && x.biz == Refund)
  }

  predicate Terminal(s: Status) {
    s == RecvSuccess || s == Failed
  }

  function Commit(s: System, r: Result<Db>): System {
    if r.Ok? then s.(db := r.value) else s
  }

  function Step(s: System, e: Event): System {
    match e
    case AccountOpened(no, a) => Commit(s, CreateAccount(s.db, no, a))
    case MerchantOpened(m, b, r, w) => Commit(s, CreateMerchant(s.db, m, b, r, w))
    case CapabilitiesSet(no, d, c, t) => s.(db := SetCapabilities(s.db, no, d, c, t))
    case WebhookSet(m, on) => s.(db := SetWebhook(s.db, m, on))
    case Validated(req) =>
      var r := Prepare(s.db, req);
      if r.Ok? && r.value.amount > 0 then s.(prepared := s.prepared + {r.value}) else s
    case Inserted(t, x) => if x in s.prepared then Commit(s, InsertTxn(s.db, t, x)) else s
    case StageTried(t, expected, env) =>
      if Terminal(expected) then s
      else (
        match Stage(s.db, t, expected, env)
        case Applied(db1) => s.(db := db1)
        case Skipped(_) => s
        case Rejected(err) =>
          if t in s.db.txns && FailsTxn(s.db.txns[t], expected, err)
          then s.(tickets := s.tickets + {(t, expected)})
          else s
      )
    case FailWritten(t, from) =>
      if (t, from) in s.tickets then s.(db := Transition(s.db, t, from, Failed)) else s
  }

  /** Requests come from the API handlers, and the clock reads a date before the year 9707. */
  predicate Legal(e: Event) {
    match e
    case Validated(req) => FromApi(req)
    case StageTried(_, _, env) => ClockInRange(env.today)
    case _ => true
  }

  ghost predicate AllLegal(run: seq<Event>) {
    forall e | e in run :: Legal(e)
  }

  function Run(run: seq<Event>): System {
    if run == [] then START else Step(Run(run[..|run| - 1]), run[|run| - 1])
  }

  // ---------- the invariant over runs ----------

  /** The ledger invariant; nobody ever decides to fail a transaction past INIT; and what a
      submission has checked cannot stop being true before it inserts. */
  ghost predicate SystemOk(s: System) {
    && Inv(s.db)
    && (forall k | k in s.tickets :: k.1 == Init)
    && (forall x {:trigger PreparedOk(s.db.accounts, s.db.txns, x)} | x in s.prepared ::
          PreparedOk(s.db.accounts, s.db.txns, x))
  }

  lemma {:induction false} StepKeepsInv(s: System, e: Event)
    requires SystemOk(s) && Legal(e)
    ensures Inv(Step(s, e).db) && forall k | k in Step(s, e).tickets :: k.1 == Init
  {
    match e
    case AccountOpened(no, a) =>
      if CreateAccount(s.db, no, a).Ok? {
        CreateAccountKeepsInv(s.db, no, a);
      }
    case MerchantOpened(m, b, r, w) =>
      if CreateMerchant(s.db, m, b, r, w).Ok? {
        CreateMerchantKeepsInv(s.db, m, b, r, w);
      }
    case CapabilitiesSet(no, d, c, t) =>
      CapabilitiesKeepInv(s.db, no, d, c, t);
    case WebhookSet(m, on) =>
    case Validated(req) =>
    case Inserted(t, x) =>
      if x in s.prepared && InsertTxn(s.db, t, x).Ok? {
        InsertPrepared(s.db, t, x);
      }
    case StageTried(t, expected, env) =>
      StageKeepsInv(s.db, t, expected, env);
    case FailWritten(t, from) =>
      if (t, from) in s.tickets && t in s.db.txns && s.db.txns[t].status == Init {
        FailKeepsInv(s.db, t);
      }
  }

  // ---------- what a step may change ----------

  /** A row that is there after a step: moved on legally from what it was, failed only from INIT,
      or new and either submitted or a finished write-off. */
  predicate RowStep(txns: map<TxnNo, Txn>, t: TxnNo, y: Txn) {
    if t in txns then
      && SameTerms(txns[t], y) && Advances(txns[t].status, y.status)
      && (y.status == Failed ==> txns[t].status == Init || txns[t].status == Failed)
    else
      y.status == Init || (y.status == RecvSuccess && y.biz == Transfer && y.scene == ExpireWriteoff)
  }

  ghost predicate TxnsStep(txns: map<TxnNo, Txn>, txns1: map<TxnNo, Txn>) {
    && (forall t | t in txns :: t in txns1)
    && (forall t {:trigger RowStep(txns, t, txns1[t])} | t in txns1 :: RowStep(txns, t, txns1[t]))
  }

  /** A sweep followed by the debit of `t` makes a legal step. */
  lemma {:induction false} DebitRows(accounts: map<AccountNo, Account>, txns: map<TxnNo, Txn>, swept: map<TxnNo, Txn>,
                                     t: TxnNo)
    requires forall u | u in txns :: u in swept && swept[u] == txns[u]
    requires forall u | u in swept && u !in txns ::
      swept[u].biz == Transfer && swept[u].scene == ExpireWriteoff && swept[u].status == RecvSuccess
    requires t in txns && DebitReady(accounts, swept, t)
    ensures TxnsStep(txns, AfterDebit(swept, t))
  {
    var txns1 := AfterDebit(swept, t);
    forall u | u in txns1
      ensures RowStep(txns, u, txns1[u])
    {
      assert txns1[u] == swept[u].(status := txns1[u].status, refundable := txns1[u].refundable);
    }
  }

  lemma {:induction false} StageInitRows(db: Db, t: TxnNo, env: Env)
    requires Inv(db) && t in db.txns && db.txns[t].status == Init && ClockInRange(env.today)
    requires StageInit(db, t, env).Ok?
    ensures TxnsStep(db.txns, StageInit(db, t, env).value.txns)
  {
    StageInitIsDebit(db, t, env);
    SweepKeepsInv(db, db.txns[t].debit, env);
    var db1 := Sweep(db, db.txns[t].debit, env).value;
    DebitRows(db1.accounts, db.txns, db1.txns, t);
  }

  /** The debit stage changes the status of its own transaction only. */
  lemma {:induction false} StatusAfterDebit(db: Db, t: TxnNo, env: Env, u: TxnNo)
    requires Inv(db) && t in db.txns && db.txns[t].status == Init && ClockInRange(env.today) && u in db.txns
    requires StageInit(db, t, env).Ok?
    ensures var txns1 := StageInit(db, t, env).value.txns;
            u in txns1 && txns1[u].status == if u == t then PaySuccess else db.txns[u].status
  {
    StageInitIsDebit(db, t, env);
    SweepKeepsInv(db, db.txns[t].debit, env);
  }

  lemma {:induction false} StagePayRows(db: Db, t: TxnNo, env: Env)
    requires Inv(db) && t in db.txns && db.txns[t].status == PaySuccess && ClockInRange(env.today)
    ensures StagePay(db, t, env).Ok? && TxnsStep(db.txns, StagePay(db, t, env).value.txns)
    ensures StagePay(db, t, env).value.txns == AfterCredit(db.txns, t)
  {
    StagePaySucceeds(db, t, env);
  }

  lemma {:induction false} StageRows(db: Db, t: TxnNo, expected: Status, env: Env)
    requires Inv(db) && ClockInRange(env.today) && Stage(db, t, expected, env).Applied?
    ensures TxnsStep(db.txns, Stage(db, t, expected, env).db.txns)
  {
    if expected == Init {
      StageInitRows(db, t, env);
    } else {
      StagePayRows(db, t, env);
    }
  }

  /** A stage that commits moves its own transaction on by one status and leaves all others where
      they are; what it adds is finished. */
  lemma {:induction false} StageStatuses(db: Db, t: TxnNo, expected: Status, env: Env, u: TxnNo)
    requires Inv(db) && ClockInRange(env.today) && Stage(db, t, expected, env).Applied?
    requires u in Stage(db, t, expected, env).db.txns
    ensures Stage(db, t, expected, env).db.txns[u].status
         == if u == t then (if expected == Init then PaySuccess else RecvSuccess)
            else if u in db.txns then db.txns[u].status
            else RecvSuccess
  {
    if expected == Init {
      if u in db.txns {
        StatusAfterDebit(db, t, env, u);
      } else {
        StageInitIsDebit(db, t, env);
        SweepKeepsInv(db, db.txns[t].debit, env);
        var swept := Sweep(db, db.txns[t].debit, env).value;
        AfterDebitGrows(swept.accounts, swept.txns, t);
      }
    } else {
      StagePayRows(db, t, env);
    }
  }

  /** Every status change of a step is one the state machine allows, and only INIT can fail. */
  lemma {:induction false} StepRows(s: System, e: Event)
    requires SystemOk(s) && Legal(e)
    ensures TxnsStep(s.db.txns, Step(s, e).db.txns)
  {
    if !e.StageTried? {
      forall x | x in s.prepared
        ensures x.status == Init
      {
        assert PreparedOk(s.db.accounts, s.db.txns, x);
      }
      QuietRows(s, e);
    } else if Stage(s.db, e.txn, e.expected, e.env).Applied? {
      StageRows(s.db, e.txn, e.expected, e.env);
    }
  }

  lemma {:induction false} QuietRows(s: System, e: Event)
    requires !e.StageTried? && forall k | k in s.tickets :: k.1 == Init
    requires forall x | x in s.prepared :: x.status == Init
    ensures TxnsStep(s.db.txns, Step(s, e).db.txns)
  {
    match e
    case Validated(_) =>
    case Inserted(_, _) =>
    case AccountOpened(_, _) =>
    case MerchantOpened(_, _, _, _) =>
    case CapabilitiesSet(_, _, _, _) =>
    case WebhookSet(_, _) =>
    case FailWritten(_, _) =>
  }

  /** Only a stage writes entries or moves a transaction forward. */
  lemma {:induction false} QuietStep(s: System, e: Event)
    requires !e.StageTried?
    ensures var db1 := Step(s, e).db;
            && db1.accountLog == s.db.accountLog && db1.bookLog == s.db.bookLog && db1.outbox == s.db.outbox
            && forall u | u in s.db.txns && u in db1.txns ::
                 db1.txns[u].status == s.db.txns[u].status || db1.txns[u].status == Failed
  {
    match e
    case AccountOpened(_, _) =>
    case MerchantOpened(_, _, _, _) =>
    case CapabilitiesSet(_, _, _, _) =>
    case WebhookSet(_, _) =>
    case Validated(_) =>
    case Inserted(_, _) =>
    case FailWritten(_, _) =>
  }

  // ---------- submissions under way ----------

  lemma {:induction false} StageAccounts(db: Db, t: TxnNo, expected: Status, env: Env)
    requires Inv(db) && ClockInRange(env.today) && Stage(db, t, expected, env).Applied?
    ensures AccountsGrow(db.accounts, Stage(db, t, expected, env).db.accounts)
  {
    if expected == Init {
      StageInitAccounts(db, t, env);
    } else {
      StagePaySucceeds(db, t, env);
      BooksConsistent(db, db.txns[t].credit);
      CreditTables(db, t, CreditPartsOf(db, t, env.today), env.today, db.webhooks);
    }
  }

  lemma {:induction false} StageInitAccounts(db: Db, t: TxnNo, env: Env)
    requires Inv(db) && t in db.txns && db.txns[t].status == Init && ClockInRange(env.today)
    requires StageInit(db, t, env).Ok?
    ensures AccountsGrow(db.accounts, StageInit(db, t, env).value.accounts)
  {
    StageInitIsDebit(db, t, env);
    SweepKeepsInv(db, db.txns[t].debit, env);
    var swept := Sweep(db, db.txns[t].debit, env).value;
    DebitTables(swept, t, DebitParts(swept, db.txns[t].debit, db.txns[t].amount, env.today), env.today);
  }

  /** Accounts stay, with their merchant and their kind. */
  lemma {:induction false} StepAccounts(s: System, e: Event)
    requires SystemOk(s) && Legal(e)
    ensures AccountsGrow(s.db.accounts, Step(s, e).db.accounts)
  {
    if e.StageTried? {
      if Stage(s.db, e.txn, e.expected, e.env).Applied? {
        StageAccounts(s.db, e.txn, e.expected, e.env);
      }
    } else {
      QuietAccounts(s, e);
    }
  }

  lemma {:induction false} QuietAccounts(s: System, e: Event)
    requires !e.StageTried?
    ensures AccountsGrow(s.db.accounts, Step(s, e).db.accounts)
  {
    match e
    case AccountOpened(_, _) =>
    case MerchantOpened(m, b, r, w) =>
      OpenedAccounts(s.db, m, b, r, w);
    case CapabilitiesSet(_, _, _, _) =>
    case WebhookSet(_, _) =>
    case Validated(_) =>
    case Inserted(_, _) =>
    case FailWritten(_, _) =>
  }

  lemma {:induction false} OpenedAccounts(db: Db, m: MerchantNo, budget: AccountNo, receivable: AccountNo,
                                          writeoff: AccountNo)
    ensures var r := CreateMerchant(db, m, budget, receivable, writeoff);
            r.Ok? ==> AccountsGrow(db.accounts, r.value.accounts)
  {
  }

  lemma {:induction false} PreparedStays(accounts: map<AccountNo, Account>, accounts1: map<AccountNo, Account>,
                                         txns: map<TxnNo, Txn>, txns1: map<TxnNo, Txn>, x: Txn)
    requires PreparedOk(accounts, txns, x) && AccountsGrow(accounts, accounts1) && TxnsStep(txns, txns1)
    ensures PreparedOk(accounts1, txns1, x)
  {
    if x.biz == Refund {
      assert RowStep(txns, x.refundOf.value, txns1[x.refundOf.value]);
    }
  }

  lemma {:induction false} StepKeepsOk(s: System, e: Event)
    requires SystemOk(s) && Legal(e)
    ensures SystemOk(Step(s, e))
  {
    var s1 := Step(s, e);
    StepKeepsInv(s, e);
    StepRows(s, e);
    StepAccounts(s, e);
    forall x | x in s1.prepared
      ensures PreparedOk(s1.db.accounts, s1.db.txns, x)
    {
      if x in s.prepared {
        PreparedStays(s.db.accounts, s1.db.accounts, s.db.txns, s1.db.txns, x);
      } else {
        JustPrepared(s, e, x);
      }
    }
  }

  lemma {:induction false} JustPrepared(s: System, e: Event, x: Txn)
    requires Legal(e) && x in Step(s, e).prepared && x !in s.prepared
    ensures PreparedOk(Step(s, e).db.accounts, Step(s, e).db.txns, x)
  {
    PrepareChecks(s.db, e.request);
  }

  /** Whatever happens, in whatever order, the ledger invariant holds. */
  lemma {:induction false} RunsKeepInv(run: seq<Event>)
    requires AllLegal(run)
    ensures SystemOk(Run(run))
  {
    if run == [] {
      EmptyInv();
    } else {
      var n := |run| - 1;
      assert forall e | e in run[..n] :: e in run;
      RunsKeepInv(run[..n]);
      StepKeepsOk(Run(run[..n]), run[n]);
    }
  }

  /** A database some legal run leads to. */
  ghost predicate Reachable(db: Db) {
    exists run {:trigger Run(run)} :: AllLegal(run) && Run(run).db == db
  }

  lemma {:induction false} ReachableInv(db: Db)
    requires Reachable(db)
    ensures Inv(db)
  {
    var run :| AllLegal(run) && Run(run).db == db;
    RunsKeepInv(run);
  }
}
