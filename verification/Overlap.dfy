/** Refunds of one origin that overlap in time: two that are between their stages together always
    restore the same units. */
module Overlap {
  import opened Domain
  import opened Refunds
  import opened Ledger
  import opened Invariants
  import opened Stages
  import opened Runs
  import opened RefundHistory

  // ---------- any two pending refunds collide ----------

  predicate PendingRefund(txns: map<TxnNo, Txn>, t: TxnNo, o: TxnNo) {
    t in txns && RefundRow(txns[t], o) && txns[t].status == PaySuccess
  }

  /** Of two pending refunds, the second one's slice ends where the first one's ended: crediting the
      first does not move the second. */
  lemma {:induction false} PendingRefundsCollide(s: System, t: TxnNo, u: TxnNo, o: TxnNo, env: Env)
    requires SystemOk(s) && ClockInRange(env.today) && t != u
    requires PendingRefund(s.db.txns, t, o) && PendingRefund(s.db.txns, u, o)
    ensures var s1 := Step(s, StageTried(t, PaySuccess, env));
            && o in s.db.txns && o in s1.db.txns && PendingRefund(s1.db.txns, u, o)
            && SliceOf(s.db, t, o) == EndingAt(Refunded(s.db.txns, o), s.db.txns[t].amount)
            && SliceOf(s1.db, u, o) == EndingAt(Refunded(s.db.txns, o), s.db.txns[u].amount)
            && !Apart(SliceOf(s.db, t, o), SliceOf(s1.db, u, o))
  {
    SliceExact(s.db, t, o);
    OtherStaysPending(s, t, u, o, env);
    StepKeepsOk(s, StageTried(t, PaySuccess, env));
    CreditSettles(s, StageTried(t, PaySuccess, env), o);
    SliceExact(Step(s, StageTried(t, PaySuccess, env)).db, u, o);
  }

  function EndingAt(end: int, amount: int): Slice {
    Slice(end - amount, amount)
  }

  lemma {:induction false} OtherStaysPending(s: System, t: TxnNo, u: TxnNo, o: TxnNo, env: Env)
    requires SystemOk(s) && ClockInRange(env.today) && t != u
    requires PendingRefund(s.db.txns, t, o) && PendingRefund(s.db.txns, u, o)
    ensures var txns1 := Step(s, StageTried(t, PaySuccess, env)).db.txns;
            PendingRefund(txns1, u, o) && txns1[u].amount == s.db.txns[u].amount
  {
    StagePayRows(s.db, t, env);
  }

  lemma {:induction false} OriginTrace(db: Db, o: TxnNo)
    requires Inv(db) && o in db.txns && Debited(db.txns[o].status) && IsBook(db.accounts, db.txns[o].debit)
    ensures ConsumedTotal(Trace(db.bookLog, o, db.txns[o].debit)) == db.txns[o].amount
  {
    assert GoodTrace(Trace(db.bookLog, o, db.txns[o].debit), db.txns[o].amount);
  }

  lemma {:induction false} PendingAmount(db: Db, t: TxnNo, o: TxnNo)
    requires Inv(db) && PendingRefund(db.txns, t, o) && o in db.txns
    ensures Debited(db.txns[o].status) && 0 < db.txns[t].amount <= Refunded(db.txns, o) <= db.txns[o].amount
  {
    RefundStatsExact(db.txns, db.accounts, db.accountLog, t);
  }

  /** Two pending refunds of a payment from books both restore part of one entry of its trace. */
  lemma {:induction false} PendingRefundsShareEntry(db: Db, t: TxnNo, u: TxnNo, o: TxnNo) returns (i: nat)
    requires Inv(db) && PendingRefund(db.txns, t, o) && PendingRefund(db.txns, u, o)
    requires o in db.txns && IsBook(db.accounts, db.txns[o].debit)
    ensures var all := Refunded(db.txns, o);
            var a, b := EndingAt(all, db.txns[t].amount), EndingAt(all, db.txns[u].amount);
            && a.offset >= 0 && a.amount > 0 && b.offset >= 0 && b.amount > 0
            && var trace := Trace(db.bookLog, o, db.txns[o].debit);
            i < |trace| && Uses(trace, a.offset, a.amount)[i] > 0 && Uses(trace, b.offset, b.amount)[i] > 0
  {
    PendingAmount(db, t, o);
    PendingAmount(db, u, o);
    OriginTrace(db, o);
    i := SlicesShareEntry(Trace(db.bookLog, o, db.txns[o].debit), Refunded(db.txns, o), db.txns[t].amount,
                          db.txns[u].amount);
  }

  lemma {:induction false} LegalSnoc(run: seq<Event>, e: Event)
    requires AllLegal(run) && Legal(e)
    ensures AllLegal(run + [e]) && Run(run + [e]) == Step(Run(run), e)
  {
    assert (run + [e])[..|run|] == run;
  }

  /** The history of a run that goes on with the credit of a refund. */
  lemma {:induction false} SlicesSnoc(run: seq<Event>, t: TxnNo, o: TxnNo, env: Env)
    requires PendingRefund(Run(run).db.txns, t, o) && o in Run(run).db.txns
    ensures var e := StageTried(t, PaySuccess, env);
            && Slices(run + [e], o) == Slices(run, o) + [SliceOf(Run(run).db, t, o)]
            && (Serial(run + [e], o) ==> Serial(run, o) && Alone(Run(run).db.txns, t, o))
  {
    var e := StageTried(t, PaySuccess, env);
    assert (run + [e])[..|run|] == run && (run + [e])[|run|] == e;
  }

  lemma {:induction false} TwoThatMeet(slices: seq<Slice>, a: Slice, b: Slice)
    requires !Apart(a, b)
    ensures !Disjoint(slices + [a] + [b])
  {
    var all, n := slices + [a] + [b], |slices|;
    assert all[n] == a && all[n + 1] == b;
  }

  /** A run that credits two refunds which are pending together is not serial, and its slices are
      not disjoint. */
  lemma {:induction false} OverlappingRunCollides(run: seq<Event>, t: TxnNo, u: TxnNo, o: TxnNo, env: Env)
    requires AllLegal(run) && ClockInRange(env.today) && t != u
    requires PendingRefund(Run(run).db.txns, t, o) && PendingRefund(Run(run).db.txns, u, o)
    ensures var longer := run + [StageTried(t, PaySuccess, env)] + [StageTried(u, PaySuccess, env)];
            var txns := Run(run).db.txns;
            && AllLegal(longer) && !Serial(longer, o) && !Disjoint(Slices(longer, o))
            && var all := Refunded(txns, o);
            Slices(longer, o) == Slices(run, o) + [EndingAt(all, txns[t].amount)] + [EndingAt(all, txns[u].amount)]
  {
    var run1 := run + [StageTried(t, PaySuccess, env)];
    RunsKeepInv(run);
    var s, s1 := Run(run), Step(Run(run), StageTried(t, PaySuccess, env));
    PendingRefundsCollide(s, t, u, o, env);
    LegalSnoc(run, StageTried(t, PaySuccess, env));
    SlicesSnoc(run, t, o, env);
    LegalSnoc(run1, StageTried(u, PaySuccess, env));
    SlicesSnoc(run1, u, o, env);
    TwoThatMeet(Slices(run, o), SliceOf(s.db, t, o), SliceOf(s1.db, u, o));
  }
}
