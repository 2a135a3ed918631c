/** What the book log says about refunds, over whole runs: the trace of a transaction never changes
    once it is debited, and the credits its refunds log are their slices, cut from that one trace. */
module RefundLog {
  import opened Domain
  import opened Collections
  import opened Books
  import opened Fefo
  import opened Refunds
  import opened Ledger
  import opened Invariants
  import opened Frames
  import opened Effects
  import opened Maintenance
  import opened Stages
  import opened Runs
  import opened Guarantees
  import opened RefundHistory

  // ---------- which entries a step adds ----------

  lemma {:induction false} FilterOther(p: BookChange -> bool, log: seq<BookChange>, changes: seq<BookChange>)
    requires forall c | c in changes :: !p(c)
    ensures Filter(p, log + changes) == Filter(p, log)
  {
    FilterConcat(p, log, changes);
    FilterNone(p, changes);
  }

  /** `p` selects no entry of transaction `t`. */
  ghost predicate Skips(p: BookChange -> bool, t: TxnNo) {
    forall c: BookChange {:trigger p(c)} :: c.txn == t ==> !p(c)
  }

  lemma {:induction false} WriteOffFilter(db: Db, a: AccountNo, w: AccountNo, t: TxnNo, today: Date,
                                          p: BookChange -> bool)
    requires a in db.accounts && w in db.accounts && Skips(p, t)
    ensures Filter(p, WriteOff(db, a, w, t, today).bookLog) == Filter(p, db.bookLog)
  {
    var total, parts := Total(Expired(BooksOf(db, a), today)), SweepParts(BooksOf(db, a), today);
    var db1 := Post(db, t, a, -total, parts, today);
    PartChangesRows(t, a, BooksOf(db, a), parts, today);
    FilterOther(p, db.bookLog, PartChanges(t, a, BooksOf(db, a), parts, today));
    var parts1 := PlainParts(db1.accounts[w], total, None);
    PartChangesRows(t, w, BooksOf(db1, w), parts1, today);
    FilterOther(p, db1.bookLog, PartChanges(t, w, BooksOf(db1, w), parts1, today));
  }

  lemma {:induction false} SweepFilter(db: Db, a: AccountNo, env: Env, p: BookChange -> bool)
    requires a in db.accounts && Sweep(db, a, env).Ok? && (env.writeoffTxn !in db.txns ==> Skips(p, env.writeoffTxn))
    ensures Filter(p, Sweep(db, a, env).value.bookLog) == Filter(p, db.bookLog)
  {
    if db.accounts[a].bookEnabled && Expired(BooksOf(db, a), env.today) != [] {
      var (db1, w) := EnsureWriteoff(db, db.accounts[a].merchant, env.newAccount).value;
      assert db1.bookLog == db.bookLog && db1.txns == db.txns && a in db1.accounts && w in db1.accounts;
      WriteOffFilter(db1, a, w, env.writeoffTxn, env.today, p);
    }
  }

  lemma {:induction false} StageInitFilter(db: Db, t: TxnNo, env: Env, p: BookChange -> bool)
    requires Inv(db) && t in db.txns && db.txns[t].status == Init && ClockInRange(env.today)
    requires StageInit(db, t, env).Ok?
    requires env.writeoffTxn !in db.txns ==> Skips(p, env.writeoffTxn)
    requires forall c: BookChange {:trigger p(c)} :: c.txn == t && c.delta < 0 ==> !p(c)
    ensures Filter(p, StageInit(db, t, env).value.bookLog) == Filter(p, db.bookLog)
  {
    StageInitIsDebit(db, t, env);
    var a := db.txns[t].debit;
    var db1 := Sweep(db, a, env).value;
    SweepFilter(db, a, env, p);
    var parts := DebitParts(db1, a, db.txns[t].amount, env.today);
    SweptParts(db, a, db.txns[t].amount, env);
    DebitTables(db1, t, parts, env.today);
    PartChangesRows(t, a, db1.books[a], parts, env.today);
    FilterOther(p, db1.bookLog, PartChanges(t, a, db1.books[a], parts, env.today));
  }

  /** What is drawn from a swept account is drawn in negative parts. */
  lemma {:induction false} SweptParts(db: Db, a: AccountNo, amount: int, env: Env)
    requires Inv(db) && a in db.accounts && ClockInRange(env.today) && Sweep(db, a, env).Ok? && amount > 0
    ensures var db1 := Sweep(db, a, env).value;
            a in db1.accounts && forall q | q in DebitParts(db1, a, amount, env.today) :: q.amount < 0
  {
    SweepKeepsInv(db, a, env);
    var db1 := Sweep(db, a, env).value;
    BooksConsistent(db1, a);
    if db1.accounts[a].bookEnabled {
      DrawOnBooks(db1.books[a], env.today, amount);
    }
  }

  lemma {:induction false} StagePayFilter(db: Db, t: TxnNo, env: Env, p: BookChange -> bool)
    requires Inv(db) && t in db.txns && db.txns[t].status == PaySuccess && ClockInRange(env.today)
    requires forall c: BookChange {:trigger p(c)} :: c.txn == t && c.delta > 0 ==> !p(c)
    ensures StagePay(db, t, env).Ok? && Filter(p, StagePay(db, t, env).value.bookLog) == Filter(p, db.bookLog)
  {
    StagePaySucceeds(db, t, env);
    var a, parts := db.txns[t].credit, CreditPartsOf(db, t, env.today);
    BooksConsistent(db, a);
    CreditTables(db, t, parts, env.today, db.webhooks);
    PartChangesRows(t, a, db.books[a], parts, env.today);
    FilterOther(p, db.bookLog, PartChanges(t, a, db.books[a], parts, env.today));
  }

  // ---------- a trace never changes ----------

  lemma {:induction false} StageTrace(db: Db, t: TxnNo, expected: Status, env: Env, o: TxnNo, b: AccountNo)
    requires Inv(db) && ClockInRange(env.today) && o in db.txns && Debited(db.txns[o].status)
    requires Stage(db, t, expected, env).Applied?
    ensures Trace(Stage(db, t, expected, env).db.bookLog, o, b) == Trace(db.bookLog, o, b)
  {
    if expected == Init {
      StageInitFilter(db, t, env, IsTrace(o, b));
    } else {
      StagePayFilter(db, t, env, IsTrace(o, b));
    }
  }

  lemma {:induction false} StepTrace(s: System, e: Event, o: TxnNo, b: AccountNo)
    requires SystemOk(s) && Legal(e) && o in s.db.txns && Debited(s.db.txns[o].status)
    ensures Trace(Step(s, e).db.bookLog, o, b) == Trace(s.db.bookLog, o, b)
  {
    if !e.StageTried? {
      QuietStep(s, e);
    } else if Stage(s.db, e.txn, e.expected, e.env).Applied? {
      StageTrace(s.db, e.txn, e.expected, e.env, o, b);
    }
  }

  /** The trace of a debited transaction is the same at every later time of a run. */
  lemma {:induction false} TraceIsFixed(run: seq<Event>, more: seq<Event>, o: TxnNo, b: AccountNo)
    requires AllLegal(run + more) && o in Run(run).db.txns && Debited(Run(run).db.txns[o].status)
    ensures Trace(Run(run + more).db.bookLog, o, b) == Trace(Run(run).db.bookLog, o, b)
    decreases |more|
  {
    if more == [] {
      assert run + more == run;
    } else {
      var n := |more| - 1;
      RunExtends(run, more);
      TraceIsFixed(run, more[..n], o, b);
      ProgressIsKept(run, more[..n], o);
      RunsKeepInv(run + more[..n]);
      StepTrace(Run(run + more[..n]), more[n], o, b);
    }
  }

  // ---------- what the refunds of an origin log ----------

  /** A credit entry of a refund of `o` on account `a`. */
  function IsRefundCredit(txns: map<TxnNo, Txn>, o: TxnNo, a: AccountNo): BookChange -> bool {
    (c: BookChange) => c.txn in txns && RefundRow(txns[c.txn], o) && c.account == a && c.delta > 0
  }

  function PartOf(c: BookChange): Part {
    Part(c.expireAt, c.delta)
  }

  function EntryParts(entries: seq<BookChange>): (r: seq<Part>)
    ensures |r| == |entries|
  {
    seq(|entries|, i requires 0 <= i < |entries| => PartOf(entries[i]))
  }

  /** The credits that the refunds of `o` have logged on the account `o` was paid from. */
  function RefundCredits(db: Db, o: TxnNo): seq<Part>
    requires o in db.txns
  {
    EntryParts(Filter(IsRefundCredit(db.txns, o, db.txns[o].debit), db.bookLog))
  }

  /** A slice of a trace as credit parts. */
  function Cut(trace: seq<BookChange>, s: Slice, day: Date): seq<Part> {
    if s.offset >= 0 && s.amount >= 0 then RefundParts(trace, s.offset, s.amount, day) else []
  }

  /** The slices of a run, each cut from `trace` on the day its refund was credited. */
  ghost function CutSlices(run: seq<Event>, o: TxnNo, trace: seq<BookChange>): seq<Part> {
    if run == [] then []
    else
      var n := |run| - 1;
      var db := Run(run[..n]).db;
      if Credits(db, run[n], o) && o in db.txns
      then CutSlices(run[..n], o, trace) + Cut(trace, SliceOf(db, run[n].txn, o), run[n].env.today)
      else CutSlices(run[..n], o, trace)
  }

  /** Old entries are selected by the same test after a step. */
  lemma {:induction false} SameSelection(txns: map<TxnNo, Txn>, txns1: map<TxnNo, Txn>, log: seq<BookChange>, o: TxnNo,
                                         a: AccountNo)
    requires BookJournalOk(txns, log) && TxnsStep(txns, txns1)
    ensures Filter(IsRefundCredit(txns1, o, a), log) == Filter(IsRefundCredit(txns, o, a), log)
  {
    forall c | c in log
      ensures IsRefundCredit(txns1, o, a)(c) == IsRefundCredit(txns, o, a)(c)
    {
      assert BookEntryOk(txns, c) && RowStep(txns, c.txn, txns1[c.txn]);
    }
    FilterSame(IsRefundCredit(txns1, o, a), IsRefundCredit(txns, o, a), log);
  }

  lemma {:induction false} FilterSame<T>(p: T -> bool, q: T -> bool, s: seq<T>)
    requires forall x | x in s :: p(x) == q(x)
    ensures Filter(p, s) == Filter(q, s)
  {
    if s == [] {
    } else {
      assert s[0] in s && forall x | x in s[1..] :: x in s;
      FilterSame(p, q, s[1..]);
    }
  }

  /** A debit stage adds no refund credits: its own entries are debits, a sweep's belong to a write-off. */
  lemma {:induction false} DebitAddsNone(db: Db, t: TxnNo, env: Env, o: TxnNo, a: AccountNo)
    requires Inv(db) && t in db.txns && db.txns[t].status == Init && ClockInRange(env.today)
    requires StageInit(db, t, env).Ok?
    ensures var db1 := StageInit(db, t, env).value;
            Filter(IsRefundCredit(db1.txns, o, a), db1.bookLog) == Filter(IsRefundCredit(db1.txns, o, a), db.bookLog)
  {
    var txns1 := StageInit(db, t, env).value.txns;
    StageInitRows(db, t, env);
    if env.writeoffTxn !in db.txns && env.writeoffTxn in txns1 {
      NewRowIsWriteOff(db, t, env, env.writeoffTxn);
    }
    StageInitFilter(db, t, env, IsRefundCredit(txns1, o, a));
  }

  lemma {:induction false} NewRowIsWriteOff(db: Db, t: TxnNo, env: Env, u: TxnNo)
    requires Inv(db) && t in db.txns && db.txns[t].status == Init && ClockInRange(env.today)
    requires StageInit(db, t, env).Ok?
    requires u in StageInit(db, t, env).value.txns && u !in db.txns
    ensures StageInit(db, t, env).value.txns[u].biz == Transfer
  {
    assert Stage(db, t, Init, env) == Applied(StageInit(db, t, env).value);
    StageStatuses(db, t, Init, env, u);
    StageInitRows(db, t, env);
    assert RowStep(db.txns, u, StageInit(db, t, env).value.txns[u]);
  }

  /** A credit stage of anything but a refund of `o` adds none either. */
  lemma {:induction false} OtherCreditAddsNone(db: Db, t: TxnNo, env: Env, o: TxnNo, a: AccountNo)
    requires Inv(db) && t in db.txns && db.txns[t].status == PaySuccess && ClockInRange(env.today)
    requires !RefundRow(db.txns[t], o)
    ensures StagePay(db, t, env).Ok?
    ensures var db1 := StagePay(db, t, env).value;
            Filter(IsRefundCredit(db1.txns, o, a), db1.bookLog) == Filter(IsRefundCredit(db1.txns, o, a), db.bookLog)
  {
    StagePayRows(db, t, env);
    StagePayFilter(db, t, env, IsRefundCredit(StagePay(db, t, env).value.txns, o, a));
  }

  /** The credit stage of a refund adds exactly its slice. */
  lemma {:induction false} RefundAddsSlice(db: Db, t: TxnNo, env: Env, o: TxnNo)
    requires Inv(db) && t in db.txns && db.txns[t].status == PaySuccess && ClockInRange(env.today)
    requires RefundRow(db.txns[t], o)
    requires o in db.txns && IsBook(db.accounts, db.txns[o].debit)
    ensures StagePay(db, t, env).Ok?
    ensures var db1, a := StagePay(db, t, env).value, db.txns[o].debit;
            var trace := Trace(db.bookLog, o, a);
            EntryParts(Filter(IsRefundCredit(db1.txns, o, a), db1.bookLog))
              == EntryParts(Filter(IsRefundCredit(db1.txns, o, a), db.bookLog))
                 + Cut(trace, SliceOf(db, t, o), env.today)
  {
    var a, s := db.txns[o].debit, SliceOf(db, t, o);
    OriginOfRefund(db, t, o);
    CreditRestoresSlice(db, t, o, env);
    StagePayRows(db, t, env);
    var parts := RefundParts(Trace(db.bookLog, o, a), s.offset, s.amount, env.today);
    SlicePartsPositive(db, t, o, env.today);
    AllSelected(StagePay(db, t, env).value.txns, db.bookLog, t, o, a, BooksOf(db, a), parts, env.today);
  }

  lemma {:induction false} OriginOfRefund(db: Db, t: TxnNo, o: TxnNo)
    requires Inv(db) && t in db.txns && RefundRow(db.txns[t], o)
    ensures o in db.txns && RefundLink(db.txns[t], db.txns[o]) && db.txns[t].credit in db.accounts
  {
    assert TxnOk(db.accounts, db.txns, db.txns[t]);
  }

  lemma {:induction false} SlicePartsPositive(db: Db, t: TxnNo, o: TxnNo, today: Date)
    requires Inv(db) && t in db.txns && RefundRow(db.txns[t], o) && db.txns[t].status == PaySuccess
    requires ClockInRange(today)
    requires IsBook(db.accounts, db.txns[t].credit)
    ensures o in db.txns && SliceOf(db, t, o).offset >= 0 && SliceOf(db, t, o).amount > 0
    ensures var s := SliceOf(db, t, o);
            Positive(RefundParts(Trace(db.bookLog, o, db.txns[o].debit), s.offset, s.amount, today))
  {
    SliceExact(db, t, o);
    RefundStatsExact(db.txns, db.accounts, db.accountLog, t);
    RefundPartsExact(db, t, today);
  }

  lemma {:induction false} AllSelected(txns: map<TxnNo, Txn>, log: seq<BookChange>, t: TxnNo, o: TxnNo, a: AccountNo,
                                       bs: seq<Book>, parts: seq<Part>, day: Date)
    requires t in txns && RefundRow(txns[t], o) && Positive(parts)
    ensures var p := IsRefundCredit(txns, o, a);
            EntryParts(Filter(p, log + PartChanges(t, a, bs, parts, day))) == EntryParts(Filter(p, log)) + parts
  {
    var p, changes := IsRefundCredit(txns, o, a), PartChanges(t, a, bs, parts, day);
    PartChangesRows(t, a, bs, parts, day);
    FilterConcat(p, log, changes);
    FilterAll(p, changes);
    EntriesAreParts(t, a, bs, parts, day);
    EntryPartsConcat(Filter(p, log), changes);
  }

  lemma {:induction false} EntriesAreParts(t: TxnNo, a: AccountNo, bs: seq<Book>, parts: seq<Part>, day: Date)
    ensures EntryParts(PartChanges(t, a, bs, parts, day)) == parts
  {
  }

  lemma {:induction false} EntryPartsConcat(a: seq<BookChange>, b: seq<BookChange>)
    ensures EntryParts(a + b) == EntryParts(a) + EntryParts(b)
  {
  }

  // ---------- over a run ----------

  /** What event `e` adds to the refund credits. */
  ghost function Added(db: Db, e: Event, o: TxnNo, trace: seq<BookChange>): seq<Part>
    requires o in db.txns
  {
    if Credits(db, e, o) then Cut(trace, SliceOf(db, e.txn, o), e.env.today) else []
  }

  lemma {:induction false} StageAdds(db: Db, t: TxnNo, expected: Status, env: Env, o: TxnNo)
    requires Inv(db) && ClockInRange(env.today) && Stage(db, t, expected, env).Applied?
    requires o in db.txns && IsBook(db.accounts, db.txns[o].debit)
    ensures var db1, a := Stage(db, t, expected, env).db, db.txns[o].debit;
            EntryParts(Filter(IsRefundCredit(db1.txns, o, a), db1.bookLog))
              == EntryParts(Filter(IsRefundCredit(db1.txns, o, a), db.bookLog))
                 + Added(db, StageTried(t, expected, env), o, Trace(db.bookLog, o, a))
  {
    var a := db.txns[o].debit;
    if expected == Init {
      DebitAddsNone(db, t, env, o, a);
    } else if RefundRow(db.txns[t], o) {
      RefundAddsSlice(db, t, env, o);
    } else {
      OtherCreditAddsNone(db, t, env, o, a);
    }
  }

  lemma {:induction false} StepAdds(s: System, e: Event, o: TxnNo)
    requires SystemOk(s) && Legal(e) && o in s.db.txns && IsBook(s.db.accounts, s.db.txns[o].debit)
    ensures o in Step(s, e).db.txns
    ensures RefundCredits(Step(s, e).db, o)
         == RefundCredits(s.db, o) + Added(s.db, e, o, Trace(s.db.bookLog, o, s.db.txns[o].debit))
  {
    var db, db1 := s.db, Step(s, e).db;
    StepRows(s, e);
    assert RowStep(db.txns, o, db1.txns[o]);
    SameSelection(db.txns, db1.txns, db.bookLog, o, db.txns[o].debit);
    if !e.StageTried? {
      QuietStep(s, e);
    } else if Stage(db, e.txn, e.expected, e.env).Applied? && !Terminal(e.expected) {
      StageAdds(db, e.txn, e.expected, e.env, o);
    } else {
      CreditApplies(s, e, o);
    }
  }

  /** The credit of a refund is always applied. */
  lemma {:induction false} CreditApplies(s: System, e: Event, o: TxnNo)
    requires SystemOk(s) && Legal(e)
    ensures Credits(s.db, e, o) ==> Stage(s.db, e.txn, e.expected, e.env).Applied? && !Terminal(e.expected)
  {
    if Credits(s.db, e, o) {
      StagePayRows(s.db, e.txn, e.env);
    }
  }

  ghost predicate NoRefunds(txns: map<TxnNo, Txn>, o: TxnNo) {
    forall u | u in txns :: !RefundRow(txns[u], o)
  }

  /** A refund needs an origin that was credited before the refund was even checked. */
  lemma {:induction false} RefundNeedsOrigin(s: System, e: Event, o: TxnNo)
    requires SystemOk(s) && Legal(e) && !NoRefunds(Step(s, e).db.txns, o)
    ensures o in s.db.txns && s.db.txns[o].status == RecvSuccess
  {
    var txns1 := Step(s, e).db.txns;
    var u :| u in txns1 && RefundRow(txns1[u], o);
    StepRows(s, e);
    assert RowStep(s.db.txns, u, txns1[u]);
    if u in s.db.txns {
      assert TxnOk(s.db.accounts, s.db.txns, s.db.txns[u]);
    } else {
      NewRefund(s, e, u, o);
    }
  }

  lemma {:induction false} NewRefund(s: System, e: Event, u: TxnNo, o: TxnNo)
    requires SystemOk(s) && Legal(e) && u !in s.db.txns && u in Step(s, e).db.txns
    requires RefundRow(Step(s, e).db.txns[u], o)
    ensures o in s.db.txns && s.db.txns[o].status == RecvSuccess
  {
    if e.StageTried? {
      NewFromStage(s, e, u);
    } else {
      OnlyInserts(s, e, u);
      assert PreparedOk(s.db.accounts, s.db.txns, e.row);
    }
  }

  lemma {:induction false} NewFromStage(s: System, e: Event, u: TxnNo)
    requires SystemOk(s) && Legal(e) && e.StageTried? && u !in s.db.txns && u in Step(s, e).db.txns
    ensures Step(s, e).db.txns[u].biz == Transfer
  {
    StageStatuses(s.db, e.txn, e.expected, e.env, u);
    StepRows(s, e);
    assert RowStep(s.db.txns, u, Step(s, e).db.txns[u]);
  }

  lemma {:induction false} OnlyInserts(s: System, e: Event, u: TxnNo)
    requires !e.StageTried? && u !in s.db.txns && u in Step(s, e).db.txns
    ensures e.Inserted? && e.row in s.prepared && Step(s, e).db.txns[u] == e.row
  {
    match e
    case AccountOpened(_, _) =>
    case MerchantOpened(_, _, _, _) =>
    case CapabilitiesSet(_, _, _, _) =>
    case WebhookSet(_, _) =>
    case Validated(_) =>
    case Inserted(_, _) =>
    case FailWritten(_, _) =>
  }

  lemma {:induction false} NothingToCut(run: seq<Event>, o: TxnNo, trace: seq<BookChange>)
    requires AllLegal(run) && NoRefunds(Run(run).db.txns, o)
    ensures CutSlices(run, o, trace) == []
  {
    if run == [] {
    } else {
      var n := |run| - 1;
      LegalPrefix(run);
      RunsKeepInv(run[..n]);
      StepRows(Run(run[..n]), run[n]);
      forall u | u in Run(run[..n]).db.txns
        ensures !RefundRow(Run(run[..n]).db.txns[u], o)
      {
        assert RowStep(Run(run[..n]).db.txns, u, Run(run).db.txns[u]);
      }
      NothingToCut(run[..n], o, trace);
    }
  }

  lemma {:induction false} NothingLogged(db: Db, o: TxnNo)
    requires o in db.txns && NoRefunds(db.txns, o)
    ensures RefundCredits(db, o) == []
  {
    FilterNone(IsRefundCredit(db.txns, o, db.txns[o].debit), db.bookLog);
  }

  /** The account an origin was paid from was a book account all along. */
  lemma {:induction false} BookAllAlong(s: System, e: Event, o: TxnNo)
    requires SystemOk(s) && Legal(e) && o in s.db.txns && s.db.txns[o].status == RecvSuccess
    ensures o in Step(s, e).db.txns && Step(s, e).db.txns[o].debit == s.db.txns[o].debit
    ensures IsBook(Step(s, e).db.accounts, s.db.txns[o].debit) ==> IsBook(s.db.accounts, s.db.txns[o].debit)
  {
    StepRows(s, e);
    StepAccounts(s, e);
    assert RowStep(s.db.txns, o, Step(s, e).db.txns[o]) && TxnOk(s.db.accounts, s.db.txns, s.db.txns[o]);
  }

  /** In every run, what the refunds of a payment from books have logged on the account it was paid
      from is their slices, in order, all cut from the one trace of that payment. */
  lemma {:induction false} LogIsSlices(run: seq<Event>, o: TxnNo)
    requires AllLegal(run) && o in Run(run).db.txns && IsBook(Run(run).db.accounts, Run(run).db.txns[o].debit)
    ensures var db := Run(run).db;
            RefundCredits(db, o) == CutSlices(run, o, Trace(db.bookLog, o, db.txns[o].debit))
  {
    if NoRefunds(Run(run).db.txns, o) {
      NothingLogged(Run(run).db, o);
      NothingToCut(run, o, Trace(Run(run).db.bookLog, o, Run(run).db.txns[o].debit));
    } else if run == [] {
    } else {
      var n := |run| - 1;
      var s, e := Run(run[..n]), run[n];
      LegalPrefix(run);
      RunsKeepInv(run[..n]);
      RefundNeedsOrigin(s, e, o);
      BookAllAlong(s, e, o);
      LogIsSlices(run[..n], o);
      StepTrace(s, e, o, s.db.txns[o].debit);
      StepAdds(s, e, o);
    }
  }

  // ---------- how much they log ----------

  lemma {:induction false} AddedTotal(s: System, e: Event, o: TxnNo)
    requires SystemOk(s) && Legal(e) && o in s.db.txns && IsBook(s.db.accounts, s.db.txns[o].debit)
    ensures PartsTotal(Added(s.db, e, o, Trace(s.db.bookLog, o, s.db.txns[o].debit)))
         == Settled(Step(s, e).db.txns, o) - Settled(s.db.txns, o)
  {
    if Credits(s.db, e, o) {
      OriginOfRefund(s.db, e.txn, o);
      SliceTotal(s.db, e.txn, o, e.env.today);
      CreditSettles(s, e, o);
    } else {
      SettledElsewhere(s, e, o);
    }
  }

  lemma {:induction false} SliceTotal(db: Db, t: TxnNo, o: TxnNo, today: Date)
    requires Inv(db) && t in db.txns && RefundRow(db.txns[t], o) && db.txns[t].status == PaySuccess
    requires ClockInRange(today)
    requires IsBook(db.accounts, db.txns[t].credit)
    ensures o in db.txns
    ensures PartsTotal(Cut(Trace(db.bookLog, o, db.txns[o].debit), SliceOf(db, t, o), today)) == db.txns[t].amount
  {
    SliceExact(db, t, o);
    RefundStatsExact(db.txns, db.accounts, db.accountLog, t);
    RefundPartsExact(db, t, today);
  }

  lemma {:induction false} NoneSettled(txns: map<TxnNo, Txn>, o: TxnNo)
    requires NoRefunds(txns, o)
    ensures Settled(txns, o) == 0
  {
    SumMapZero(SettledBy(o), txns);
  }

  /** The logged credits add up to the credited refunds. */
  lemma {:induction false} LogTotal(run: seq<Event>, o: TxnNo)
    requires AllLegal(run) && o in Run(run).db.txns && IsBook(Run(run).db.accounts, Run(run).db.txns[o].debit)
    ensures PartsTotal(RefundCredits(Run(run).db, o)) == Settled(Run(run).db.txns, o)
  {
    if NoRefunds(Run(run).db.txns, o) {
      NothingLogged(Run(run).db, o);
      NoneSettled(Run(run).db.txns, o);
    } else if run == [] {
    } else {
      var n := |run| - 1;
      var s, e := Run(run[..n]), run[n];
      LegalPrefix(run);
      RunsKeepInv(run[..n]);
      RefundNeedsOrigin(s, e, o);
      BookAllAlong(s, e, o);
      LogTotal(run[..n], o);
      StepAdds(s, e, o);
      AddedTotal(s, e, o);
      SumConcat((p: Part) => p.amount, RefundCredits(s.db, o),
                Added(s.db, e, o, Trace(s.db.bookLog, o, s.db.txns[o].debit)));
    }
  }

  /** Refunds served one after the other: the credits they log are consecutive slices of the one
      trace and add up to the credited amounts; no unit of a book is restored twice; and once the
      origin is refunded in full, every unit of every book it was paid from has been restored. */
  lemma {:induction false} SerialRefundsRestoreOnce(run: seq<Event>, o: TxnNo, i: nat)
    requires AllLegal(run) && Serial(run, o)
    requires o in Run(run).db.txns && Debited(Run(run).db.txns[o].status)
    requires IsBook(Run(run).db.accounts, Run(run).db.txns[o].debit)
    requires i < |Trace(Run(run).db.bookLog, o, Run(run).db.txns[o].debit)|
    ensures forall s | s in Slices(run, o) :: s.offset >= 0 && s.amount > 0
    ensures var db := Run(run).db;
            var trace := Trace(db.bookLog, o, db.txns[o].debit);
            && RefundCredits(db, o) == CutSlices(run, o, trace) && Consecutive(Slices(run, o))
            && PartsTotal(RefundCredits(db, o)) == TotalOf(Slices(run, o)) == Settled(db.txns, o)
            && RestoredAt(trace, Slices(run, o), i) <= Consumed(trace[i])
            && (Settled(db.txns, o) == db.txns[o].amount ==> RestoredAt(trace, Slices(run, o), i) == Consumed(trace[i]))
  {
    LogIsSlices(run, o);
    LogTotal(run, o);
    HistoryInEveryRun(run, o);
    SerialIffConsecutive(run, o);
    TraceInRun(run, o);
    RestoredWithin(Trace(Run(run).db.bookLog, o, Run(run).db.txns[o].debit), Slices(run, o), i);
  }

  lemma {:induction false} TraceInRun(run: seq<Event>, o: TxnNo)
    requires AllLegal(run) && o in Run(run).db.txns && Debited(Run(run).db.txns[o].status)
    requires IsBook(Run(run).db.accounts, Run(run).db.txns[o].debit)
    ensures ConsumedTotal(Trace(Run(run).db.bookLog, o, Run(run).db.txns[o].debit)) == Run(run).db.txns[o].amount
  {
    RunsKeepInv(run);
    var db := Run(run).db;
    assert GoodTrace(Trace(db.bookLog, o, db.txns[o].debit), db.txns[o].amount);
  }
}
