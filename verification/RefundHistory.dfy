/** Which slices of an origin's debit trace its refunds restore, over a whole run: they follow one
    another without gap or overlap exactly when no refund is credited while another of the same
    origin is between its two stages. */
module RefundHistory {
  import opened Domain
  import opened Collections
  import opened Refunds
  import opened Ledger
  import opened Invariants
  import opened Frames
  import opened Stages
  import opened Runs

  // ---------- slices as intervals ----------

  /** A refund restores the units [offset, offset + amount) of the origin's trace. */
  datatype Slice = Slice(offset: int, amount: int)

  function End(s: Slice): int {
    s.offset + s.amount
  }

  function AmountOf(s: Slice): int {
    s.amount
  }

  function TotalOf(slices: seq<Slice>): int {
    SumBy(AmountOf, slices)
  }

  predicate Apart(a: Slice, b: Slice) {
    End(a) <= b.offset || End(b) <= a.offset
  }

  ghost predicate Disjoint(slices: seq<Slice>) {
    forall i, j | 0 <= i < j < |slices| :: Apart(slices[i], slices[j])
  }

  /** Each slice starts where the ones before it end. */
  ghost predicate Consecutive(slices: seq<Slice>) {
    slices == [] ||
    var n := |slices| - 1;
    Consecutive(slices[..n]) && slices[n].offset == TotalOf(slices[..n])
  }

  /** What is true of the slices of any run. */
  ghost predicate Plausible(slices: seq<Slice>) {
    && (forall s | s in slices :: s.offset >= 0 && s.amount > 0)
    && (forall i, j | 0 <= i < j < |slices| :: End(slices[i]) <= End(slices[j]))
  }

  lemma {:induction false} ConsecutiveSnoc(slices: seq<Slice>, s: Slice)
    ensures Consecutive(slices + [s]) <==> Consecutive(slices) && s.offset == TotalOf(slices)
  {
    assert (slices + [s])[..|slices|] == slices;
  }

  lemma {:induction false} TotalLast(slices: seq<Slice>)
    requires slices != []
    ensures var n := |slices| - 1; TotalOf(slices) == TotalOf(slices[..n]) + slices[n].amount
  {
    var n := |slices| - 1;
    assert slices == slices[..n] + [slices[n]];
    SumSnoc(AmountOf, slices[..n], slices[n]);
  }

  lemma {:induction false} ConsecutiveEnds(slices: seq<Slice>, i: nat)
    requires Consecutive(slices) && i < |slices| && forall s | s in slices :: s.amount > 0
    ensures End(slices[i]) <= TotalOf(slices)
  {
    var n := |slices| - 1;
    assert slices[n] in slices;
    TotalLast(slices);
    if i < n {
      assert forall s | s in slices[..n] :: s in slices;
      ConsecutiveEnds(slices[..n], i);
    }
  }

  lemma {:induction false} ConsecutiveIsDisjoint(slices: seq<Slice>)
    requires Consecutive(slices) && forall s | s in slices :: s.amount > 0
    ensures Disjoint(slices)
  {
    if slices == [] {
    } else {
      var n := |slices| - 1;
      assert forall s | s in slices[..n] :: s in slices;
      ConsecutiveIsDisjoint(slices[..n]);
      forall i, j | 0 <= i < j < |slices|
        ensures Apart(slices[i], slices[j])
      {
        if j == n {
          ConsecutiveEnds(slices[..n], i);
        } else {
          assert Apart(slices[..n][i], slices[..n][j]);
        }
      }
    }
  }

  lemma {:induction false} LastSlice(slices: seq<Slice>)
    requires Plausible(slices) && Disjoint(slices) && |slices| > 1
    ensures var n := |slices| - 1;
            Plausible(slices[..n]) && Disjoint(slices[..n]) && End(slices[n - 1]) <= slices[n].offset
  {
    var n := |slices| - 1;
    assert Apart(slices[n - 1], slices[n]) && End(slices[n - 1]) <= End(slices[n]);
    assert slices[n] in slices && forall s | s in slices[..n] :: s in slices;
  }

  /** Disjoint slices whose ends never decrease reach at least as far as they are long together,
      and exactly that far only when they leave no gap. */
  lemma {:induction false} DisjointReach(slices: seq<Slice>)
    requires Plausible(slices) && Disjoint(slices) && slices != []
    ensures TotalOf(slices) <= End(slices[|slices| - 1])
    ensures TotalOf(slices) == End(slices[|slices| - 1]) ==> Consecutive(slices)
  {
    TotalLast(slices);
    if |slices| == 1 {
      assert slices[0] in slices && TotalOf(slices[..0]) == 0;
    } else {
      LastSlice(slices);
      DisjointReach(slices[..|slices| - 1]);
    }
  }

  // ---------- settled and pending refunds ----------

  predicate RefundRow(x: Txn, o: TxnNo) {
    x.biz == Refund && x.refundOf == Some(o)
  }

  function SettledBy(o: TxnNo): Txn -> int {
    (x: Txn) => if RefundRow(x, o) && x.status == RecvSuccess then x.amount else 0
  }

  function PendingBy(o: TxnNo): Txn -> int {
    (x: Txn) => if RefundRow(x, o) && x.status == PaySuccess then x.amount else 0
  }

  /** What the credited refunds of `o` add up to. */
  ghost function Settled(txns: map<TxnNo, Txn>, o: TxnNo): int {
    SumMap(SettledBy(o), txns)
  }

  /** What the refunds of `o` between their two stages add up to. */
  ghost function Pending(txns: map<TxnNo, Txn>, o: TxnNo): int {
    SumMap(PendingBy(o), txns)
  }

  lemma {:induction false} SumMapAdd<K, V>(f: V -> int, g: V -> int, h: V -> int, m: map<K, V>)
    requires forall k | k in m :: h(m[k]) == f(m[k]) + g(m[k])
    ensures SumMap(h, m) == SumMap(f, m) + SumMap(g, m)
    decreases |m|
  {
    if m == map[] {
    } else {
      var k :| k in m;
      SumMapRemove(f, m, k);
      SumMapRemove(g, m, k);
      SumMapRemove(h, m, k);
      SumMapAdd(f, g, h, m - {k});
    }
  }

  /** A sum is the same over a bigger map whose other entries count nothing. */
  lemma {:induction false} SumMapGrow<K, V>(f: V -> int, m: map<K, V>, n: map<K, V>)
    requires forall k | k in m :: k in n && f(n[k]) == f(m[k])
    requires forall k | k in n && k !in m :: f(n[k]) == 0
    ensures SumMap(f, n) == SumMap(f, m)
    decreases |n|
  {
    if n != map[] {
      var k :| k in n;
      SumMapRemove(f, n, k);
      if k in m {
        SumMapRemove(f, m, k);
        SumMapGrow(f, m - {k}, n - {k});
      } else {
        SumMapGrow(f, m, n - {k});
      }
    } else {
      assert m == map[];
    }
  }

  lemma {:induction false} RefundedSplits(txns: map<TxnNo, Txn>, o: TxnNo)
    ensures Refunded(txns, o) == Settled(txns, o) + Pending(txns, o)
  {
    SumMapAdd(SettledBy(o), PendingBy(o), RefundedBy(o), txns);
  }

  /** No other refund of `o` is between its two stages. */
  ghost predicate Alone(txns: map<TxnNo, Txn>, t: TxnNo, o: TxnNo) {
    forall u | u in txns && u != t :: !(RefundRow(txns[u], o) && txns[u].status == PaySuccess)
  }

  lemma {:induction false} AmountsPositive(accounts: map<AccountNo, Account>, txns: map<TxnNo, Txn>)
    requires TxnsOk(accounts, txns)
    ensures forall u | u in txns :: txns[u].amount > 0
  {
    forall u | u in txns
      ensures txns[u].amount > 0
    {
      assert TxnOk(accounts, txns, txns[u]);
    }
  }

  /** The pending refunds amount to `t` alone exactly when `t` is alone. */
  lemma {:induction false} AloneIffPending(txns: map<TxnNo, Txn>, t: TxnNo, o: TxnNo)
    requires t in txns && RefundRow(txns[t], o) && txns[t].status == PaySuccess
    requires forall u | u in txns :: txns[u].amount > 0
    ensures Pending(txns, o) >= txns[t].amount
    ensures Alone(txns, t, o) <==> Pending(txns, o) == txns[t].amount
  {
    SumMapRemove(PendingBy(o), txns, t);
    var others := txns - {t};
    SumMapNonNegative(PendingBy(o), others);
    if Alone(txns, t, o) {
      SumMapZero(PendingBy(o), others);
    } else {
      var u :| u in txns && u != t && RefundRow(txns[u], o) && txns[u].status == PaySuccess;
      assert PendingBy(o)(others[u]) == txns[u].amount;
    }
  }

  // ---------- the slices of a run ----------

  /** In `db`, event `e` is the credit of a refund of `o`. */
  predicate Credits(db: Db, e: Event, o: TxnNo) {
    && e.StageTried? && e.expected == PaySuccess
    && e.txn in db.txns && db.txns[e.txn].status == PaySuccess && RefundRow(db.txns[e.txn], o)
  }

  /** The slice the code restores: it starts at total_debited - current_debited. */
  function SliceOf(db: Db, t: TxnNo, o: TxnNo): Slice
    requires t in db.txns && o in db.txns
  {
    var (total, current) := RefundStats(db, t, db.txns[t].merchant, o, db.txns[o].credit);
    Slice(total - current, db.txns[t].amount)
  }

  /** The slices restored by the refunds of `o`, in the order they were credited. */
  ghost function Slices(run: seq<Event>, o: TxnNo): seq<Slice> {
    if run == [] then []
    else
      var n := |run| - 1;
      var db := Run(run[..n]).db;
      if Credits(db, run[n], o) && o in db.txns then Slices(run[..n], o) + [SliceOf(db, run[n].txn, o)]
      else Slices(run[..n], o)
  }

  /** Each refund of `o` was the only one between its two stages when it was credited. */
  ghost predicate Serial(run: seq<Event>, o: TxnNo) {
    run == [] ||
    var n := |run| - 1;
    var db := Run(run[..n]).db;
    Serial(run[..n], o) && (Credits(db, run[n], o) ==> Alone(db.txns, run[n].txn, o))
  }

  lemma {:induction false} SumMapMonotone<K, V>(f: V -> int, m: map<K, V>, n: map<K, V>)
    requires forall k | k in m :: k in n && f(n[k]) >= f(m[k])
    requires forall k | k in n && k !in m :: f(n[k]) >= 0
    ensures SumMap(f, n) >= SumMap(f, m)
    decreases |n|
  {
    if n != map[] {
      var k :| k in n;
      SumMapRemove(f, n, k);
      if k in m {
        SumMapRemove(f, m, k);
        SumMapMonotone(f, m - {k}, n - {k});
      } else {
        SumMapMonotone(f, m, n - {k});
      }
    } else {
      assert m == map[];
    }
  }

  lemma {:induction false} RefundedGrows(txns: map<TxnNo, Txn>, txns1: map<TxnNo, Txn>, o: TxnNo)
    requires TxnsStep(txns, txns1) && forall u | u in txns1 :: txns1[u].amount > 0
    ensures Refunded(txns1, o) >= Refunded(txns, o)
  {
    forall u | u in txns1
      ensures RefundedBy(o)(txns1[u]) >= if u in txns then RefundedBy(o)(txns[u]) else 0
    {
      assert RowStep(txns, u, txns1[u]);
    }
    SumMapMonotone(RefundedBy(o), txns, txns1);
  }

  /** Only its own credit stage takes a transaction to RECV_SUCCESS. */
  lemma {:induction false} OnlyCreditSettles(s: System, e: Event, u: TxnNo)
    requires SystemOk(s) && Legal(e) && u in s.db.txns && u in Step(s, e).db.txns
    requires s.db.txns[u].status != RecvSuccess && Step(s, e).db.txns[u].status == RecvSuccess
    ensures e.StageTried? && e.expected == PaySuccess && e.txn == u && s.db.txns[u].status == PaySuccess
  {
    if !e.StageTried? {
      QuietStep(s, e);
    } else if Stage(s.db, e.txn, e.expected, e.env).Applied? {
      StageStatuses(s.db, e.txn, e.expected, e.env, u);
    }
  }

  lemma {:induction false} SettledElsewhere(s: System, e: Event, o: TxnNo)
    requires SystemOk(s) && Legal(e) && !Credits(s.db, e, o)
    ensures Settled(Step(s, e).db.txns, o) == Settled(s.db.txns, o)
  {
    var txns, txns1 := s.db.txns, Step(s, e).db.txns;
    StepRows(s, e);
    forall u | u in txns1
      ensures SettledBy(o)(txns1[u]) == if u in txns then SettledBy(o)(txns[u]) else 0
    {
      assert RowStep(txns, u, txns1[u]);
      if u in txns && txns[u].status != RecvSuccess && txns1[u].status == RecvSuccess {
        OnlyCreditSettles(s, e, u);
      }
    }
    SumMapGrow(SettledBy(o), txns, txns1);
  }

  lemma {:induction false} CreditSettles(s: System, e: Event, o: TxnNo)
    requires SystemOk(s) && Legal(e) && Credits(s.db, e, o)
    ensures var txns1 := Step(s, e).db.txns;
            && Settled(txns1, o) == Settled(s.db.txns, o) + s.db.txns[e.txn].amount
            && Refunded(txns1, o) == Refunded(s.db.txns, o)
  {
    var txns, t := s.db.txns, e.txn;
    StagePayRows(s.db, t, e.env);
    SumMapUpdate(SettledBy(o), txns, t, txns[t].(status := RecvSuccess));
    SumMapUpdate(RefundedBy(o), txns, t, txns[t].(status := RecvSuccess));
  }

  /** A slice ends where the refunds debited so far end; it starts where the credited ones end
      exactly when its refund is alone. */
  lemma {:induction false} SliceExact(db: Db, t: TxnNo, o: TxnNo)
    requires Inv(db) && t in db.txns && RefundRow(db.txns[t], o) && db.txns[t].status == PaySuccess
    ensures o in db.txns
    ensures var s := SliceOf(db, t, o);
            && s.offset >= 0 && s.amount > 0 && End(s) == Refunded(db.txns, o)
            && (s.offset == Settled(db.txns, o) <==> Alone(db.txns, t, o))
  {
    RefundStatsExact(db.txns, db.accounts, db.accountLog, t);
    AmountsPositive(db.accounts, db.txns);
    RefundedSplits(db.txns, o);
    AloneIffPending(db.txns, t, o);
  }

  /** What the slices say about the transaction table, at every moment. */
  ghost predicate HistoryOk(slices: seq<Slice>, txns: map<TxnNo, Txn>, o: TxnNo) {
    && TotalOf(slices) == Settled(txns, o)
    && Plausible(slices)
    && forall s | s in slices :: End(s) <= Refunded(txns, o)
  }

  lemma {:induction false} HistorySnoc(slices: seq<Slice>, s: Slice)
    requires Plausible(slices) && s.offset >= 0 && s.amount > 0 && forall r | r in slices :: End(r) <= End(s)
    ensures Plausible(slices + [s]) && TotalOf(slices + [s]) == TotalOf(slices) + s.amount
    ensures forall r | r in slices + [s] :: End(r) <= End(s)
  {
    SumSnoc(AmountOf, slices, s);
  }

  lemma {:induction false} HistoryStep(slices: seq<Slice>, s: System, e: Event, o: TxnNo)
    requires SystemOk(s) && Legal(e) && HistoryOk(slices, s.db.txns, o)
    ensures Credits(s.db, e, o) ==>
              o in s.db.txns && HistoryOk(slices + [SliceOf(s.db, e.txn, o)], Step(s, e).db.txns, o)
    ensures !Credits(s.db, e, o) ==> HistoryOk(slices, Step(s, e).db.txns, o)
  {
    if Credits(s.db, e, o) {
      SliceExact(s.db, e.txn, o);
      HistorySnoc(slices, SliceOf(s.db, e.txn, o));
      CreditSettles(s, e, o);
    } else {
      SettledElsewhere(s, e, o);
      StepRows(s, e);
      StepKeepsOk(s, e);
      AmountsPositive(Step(s, e).db.accounts, Step(s, e).db.txns);
      RefundedGrows(s.db.txns, Step(s, e).db.txns, o);
    }
  }

  lemma {:induction false} HistoryInEveryRun(run: seq<Event>, o: TxnNo)
    requires AllLegal(run)
    ensures HistoryOk(Slices(run, o), Run(run).db.txns, o)
  {
    if run == [] {
      assert Settled(map[], o) == 0;
    } else {
      var n := |run| - 1;
      LegalPrefix(run);
      HistoryInEveryRun(run[..n], o);
      RunsKeepInv(run[..n]);
      HistoryStep(Slices(run[..n], o), Run(run[..n]), run[n], o);
    }
  }

  lemma {:induction false} LegalPrefix(run: seq<Event>)
    requires AllLegal(run) && run != []
    ensures AllLegal(run[..|run| - 1]) && Legal(run[|run| - 1])
  {
    assert forall e | e in run[..|run| - 1] :: e in run;
  }

  lemma {:induction false} SerialStep(slices: seq<Slice>, db: Db, t: TxnNo, o: TxnNo)
    requires Inv(db) && HistoryOk(slices, db.txns, o)
    requires t in db.txns && RefundRow(db.txns[t], o) && db.txns[t].status == PaySuccess
    ensures o in db.txns
    ensures Consecutive(slices + [SliceOf(db, t, o)]) <==> Consecutive(slices) && Alone(db.txns, t, o)
  {
    SliceExact(db, t, o);
    ConsecutiveSnoc(slices, SliceOf(db, t, o));
  }

  /** The refunds of an origin restore consecutive slices exactly in the runs that credit each of
      them before the next is debited. */
  lemma {:induction false} SerialIffConsecutive(run: seq<Event>, o: TxnNo)
    requires AllLegal(run)
    ensures Serial(run, o) <==> Consecutive(Slices(run, o))
  {
    if run == [] {
    } else {
      var n := |run| - 1;
      LegalPrefix(run);
      SerialIffConsecutive(run[..n], o);
      HistoryInEveryRun(run[..n], o);
      RunsKeepInv(run[..n]);
      if Credits(Run(run[..n]).db, run[n], o) {
        SerialStep(Slices(run[..n], o), Run(run[..n]).db, run[n].txn, o);
      }
    }
  }

  /** Once no refund of the origin is in flight, the slices its refunds restored are pairwise
      disjoint exactly when the refunds were served one after the other. */
  lemma {:induction false} DisjointIffSerial(run: seq<Event>, o: TxnNo)
    requires AllLegal(run)
    requires forall u | u in Run(run).db.txns ::
      !(RefundRow(Run(run).db.txns[u], o) && Run(run).db.txns[u].status == PaySuccess)
    ensures Disjoint(Slices(run, o)) <==> Serial(run, o)
  {
    var slices, txns := Slices(run, o), Run(run).db.txns;
    HistoryInEveryRun(run, o);
    SerialIffConsecutive(run, o);
    RefundedSplits(txns, o);
    SumMapZero(PendingBy(o), txns);
    AllSettled(slices, Refunded(txns, o));
  }

  lemma {:induction false} AllSettled(slices: seq<Slice>, debited: int)
    requires Plausible(slices) && TotalOf(slices) == debited && forall s | s in slices :: End(s) <= debited
    ensures Disjoint(slices) <==> Consecutive(slices)
  {
    if Consecutive(slices) {
      ConsecutiveIsDisjoint(slices);
    }
    if Disjoint(slices) && slices != [] {
      DisjointReach(slices);
      assert slices[|slices| - 1] in slices;
    }
  }

  // ---------- what the slices mean for the books ----------

  /** What the slices restore of entry `i` of the trace. */
  ghost function RestoredAt(trace: seq<BookChange>, slices: seq<Slice>, i: nat): int
    requires i < |trace| && forall s | s in slices :: s.offset >= 0 && s.amount > 0
  {
    if slices == [] then 0
    else
      var n := |slices| - 1;
      assert slices[n] in slices && forall s | s in slices[..n] :: s in slices;
      RestoredAt(trace, slices[..n], i) + Uses(trace, slices[n].offset, slices[n].amount)[i]
  }

  lemma {:induction false} RestoredJoins(trace: seq<BookChange>, slices: seq<Slice>, i: nat)
    requires i < |trace| && (forall s | s in slices :: s.offset >= 0 && s.amount > 0) && Consecutive(slices)
    ensures TotalOf(slices) >= 0
    ensures RestoredAt(trace, slices, i) == Uses(trace, 0, TotalOf(slices))[i]
  {
    if slices == [] {
      UsesAreInterval(trace, 0, 0, i);
    } else {
      var n := |slices| - 1;
      assert slices[n] in slices && forall s | s in slices[..n] :: s in slices;
      RestoredJoins(trace, slices[..n], i);
      TotalLast(slices);
      AdjacentSlices(trace, 0, TotalOf(slices[..n]), slices[n].amount, i);
    }
  }

  lemma {:induction false} RestoredWithin(trace: seq<BookChange>, slices: seq<Slice>, i: nat)
    requires i < |trace| && (forall s | s in slices :: s.offset >= 0 && s.amount > 0) && Consecutive(slices)
    ensures RestoredAt(trace, slices, i) <= Consumed(trace[i])
    ensures TotalOf(slices) == ConsumedTotal(trace) ==> RestoredAt(trace, slices, i) == Consumed(trace[i])
  {
    RestoredJoins(trace, slices, i);
    UsesBounds(trace, 0, TotalOf(slices));
    if TotalOf(slices) == ConsumedTotal(trace) {
      FullRefundCovers(trace, TotalOf(slices), i);
    }
  }

  /** The credit of a refund to a book account logs exactly its slice of the origin's trace, each
      part on the date that keeps the days it had left. */
  lemma {:induction false} CreditRestoresSlice(db: Db, t: TxnNo, o: TxnNo, env: Env)
    requires Inv(db) && t in db.txns && RefundRow(db.txns[t], o) && db.txns[t].status == PaySuccess
    requires ClockInRange(env.today)
    requires IsBook(db.accounts, db.txns[t].credit)
    ensures o in db.txns && SliceOf(db, t, o).offset >= 0 && SliceOf(db, t, o).amount > 0
    ensures StagePay(db, t, env).Ok?
    ensures var a, s := db.txns[t].credit, SliceOf(db, t, o);
            var trace := Trace(db.bookLog, o, db.txns[o].debit);
            var parts := RefundParts(trace, s.offset, s.amount, env.today);
            StagePay(db, t, env).value.bookLog == db.bookLog + PartChanges(t, a, BooksOf(db, a), parts, env.today)
  {
    SliceExact(db, t, o);
    RefundStatsExact(db.txns, db.accounts, db.accountLog, t);
    RefundPartsExact(db, t, env.today);
    StagePaySucceeds(db, t, env);
  }
}
