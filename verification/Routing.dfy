/** Sharding by account: in every run of the pipeline, the transactions of one queue that move the
    same account are all with one worker, and are taken in the order they were accepted. */
module Routing {
  import opened Domain
  import opened Collections
  import opened Ledger
  import opened Invariants
  import opened Runs
  import opened StageQueues
  import opened Pipeline

  /** The account a stage moves. */
  function MovedBy(x: Txn, s: Status): AccountNo {
    if s == Init then x.debit else x.credit
  }

  /** A transaction is routed by the account its stage moves, and by its own number only if it has
      no accounts; the detour by a refund's origin is never taken. */
  lemma {:induction false} RouteIsAccount(accounts: map<AccountNo, Account>, txns: map<TxnNo, Txn>, s: Status, t: TxnNo)
    requires TxnsOk(accounts, txns) && t in txns
    ensures RouteKey(txns, s, t) == if MovedBy(txns[t], s) != "" then MovedBy(txns[t], s) else t
  {
    assert TxnOk(accounts, txns, txns[t]);
  }

  /** `t` is known, and worker `w` of `workers` is its worker for stage `s`. */
  ghost predicate BelongsTo(hash: string -> nat, txns: map<TxnNo, Txn>, s: Status, workers: nat, t: TxnNo, w: int)
    requires workers > 0
  {
    t in txns && WorkerIndex(hash, workers, ShardKey(t, RouteKey(txns, s, t))) == w
  }

  /** Worker `w` has `t` in its channel or in its hands. */
  ghost predicate With(q: Queue, t: TxnNo, w: int) {
    (0 <= w < |q.channels| && t in q.channels[w]) || (0 <= w < |q.held| && q.held[w] == Some(t))
  }

  ghost predicate LaneRouted(hash: string -> nat, txns: map<TxnNo, Txn>, s: Status, q: Queue) {
    && |q.channels| > 0
    && forall t, w {:trigger With(q, t, w)} | With(q, t, w) :: BelongsTo(hash, txns, s, |q.channels|, t, w)
  }

  ghost predicate PipeRouted(hash: string -> nat, p: Pipe) {
    LaneRouted(hash, p.sys.db.txns, Init, p.init.queue) && LaneRouted(hash, p.sys.db.txns, PaySuccess, p.pay.queue)
  }

  // ---------- the database moves on ----------

  lemma {:induction false} RouteStays(sys: System, e: Event, s: Status, t: TxnNo)
    requires SystemOk(sys) && Legal(e) && t in sys.db.txns
    ensures t in Step(sys, e).db.txns && RouteKey(Step(sys, e).db.txns, s, t) == RouteKey(sys.db.txns, s, t)
  {
    StepRows(sys, e);
    StepKeepsInv(sys, e);
    var db, db1 := sys.db, Step(sys, e).db;
    assert RowStep(db.txns, t, db1.txns[t]);
    RouteIsAccount(db.accounts, db.txns, s, t);
    RouteIsAccount(db1.accounts, db1.txns, s, t);
  }

  lemma {:induction false} LaneStays(hash: string -> nat, sys: System, e: Event, s: Status, q: Queue)
    requires SystemOk(sys) && Legal(e) && LaneRouted(hash, sys.db.txns, s, q)
    ensures LaneRouted(hash, Step(sys, e).db.txns, s, q)
  {
    forall t, w | With(q, t, w)
      ensures BelongsTo(hash, Step(sys, e).db.txns, s, |q.channels|, t, w)
    {
      assert BelongsTo(hash, sys.db.txns, s, |q.channels|, t, w);
      RouteStays(sys, e, s, t);
    }
  }

  // ---------- the queues move on ----------

  /** A queue that hands nothing to another worker stays routed. */
  lemma {:induction false} FewerStay(hash: string -> nat, txns: map<TxnNo, Txn>, s: Status, q: Queue, q1: Queue)
    requires LaneRouted(hash, txns, s, q) && |q1.channels| == |q.channels|
    requires forall t, w {:trigger With(q1, t, w)} | With(q1, t, w) :: With(q, t, w)
    ensures LaneRouted(hash, txns, s, q1)
  {
    forall t, w | With(q1, t, w)
      ensures BelongsTo(hash, txns, s, |q1.channels|, t, w)
    {
      assert With(q, t, w);
    }
  }

  lemma {:induction false} TakeRouted(hash: string -> nat, txns: map<TxnNo, Txn>, s: Status, q: Queue, w: nat)
    requires LaneRouted(hash, txns, s, q) && CanTake(q, w)
    ensures LaneRouted(hash, txns, s, Take(q, w))
  {
    FewerStay(hash, txns, s, q, Take(q, w));
  }

  lemma {:induction false} FinishRouted(hash: string -> nat, txns: map<TxnNo, Txn>, s: Status, q: Queue, w: nat)
    requires LaneRouted(hash, txns, s, q) && CanFinish(q, w)
    ensures LaneRouted(hash, txns, s, Finish(q, w))
  {
    FewerStay(hash, txns, s, q, Finish(q, w));
  }

  lemma {:induction false} OfferRouted(hash: string -> nat, p: Pipe, t: TxnNo, s: Status)
    requires PipeOk(p) && PipeRouted(hash, p) && t in p.sys.db.txns
    ensures PipeRouted(hash, Offer(hash, p, t, s))
  {
    if !Terminal(s) {
      EnqueueRouted(hash, p.sys.db.txns, s, LaneOf(p, s).queue, t);
    }
  }

  lemma {:induction false} EnqueueRouted(hash: string -> nat, txns: map<TxnNo, Txn>, s: Status, q: Queue, t: TxnNo)
    requires QueueOk(q) && LaneRouted(hash, txns, s, q) && t in txns
    ensures LaneRouted(hash, txns, s, Enqueue(hash, q, t, RouteKey(txns, s, t)).1)
  {
    var q1 := Enqueue(hash, q, t, RouteKey(txns, s, t)).1;
    RefusedOnlyAtLimit(hash, q, t, RouteKey(txns, s, t));
    forall u, w | With(q1, u, w)
      ensures BelongsTo(hash, txns, s, |q1.channels|, u, w)
    {
      assert With(q, u, w) || (u == t && w == WorkerIndex(hash, |q.channels|, ShardKey(t, RouteKey(txns, s, t))));
    }
  }

  lemma {:induction false} NewRouted(hash: string -> nat, txns: map<TxnNo, Txn>, s: Status, workers: int, size: int)
    ensures LaneRouted(hash, txns, s, NewLane(workers, size).queue)
  {
  }

  // ---------- every move ----------

  lemma {:induction false} HeldIsKnown(hash: string -> nat, p: Pipe, s: Status, w: nat)
    requires PipeRouted(hash, p) && !Terminal(s) && w < |LaneOf(p, s).queue.held| && LaneOf(p, s).queue.held[w].Some?
    ensures LaneOf(p, s).queue.held[w].value in p.sys.db.txns
  {
    assert With(LaneOf(p, s).queue, LaneOf(p, s).queue.held[w].value, w);
  }

  lemma {:induction false} SysRouted(hash: string -> nat, p: Pipe, e: Event)
    requires PipeOk(p) && PipeRouted(hash, p) && Legal(e)
    ensures PipeRouted(hash, p.(sys := Step(p.sys, e)))
  {
    LaneStays(hash, p.sys, e, Init, p.init.queue);
    LaneStays(hash, p.sys, e, PaySuccess, p.pay.queue);
  }

  lemma {:induction false} FollowedRouted(hash: string -> nat, p: Pipe, s: Status, w: nat)
    requires PipeOk(p) && PipeRouted(hash, p)
    ensures PipeRouted(hash, FollowUp(hash, p, s, w))
  {
    var l := LaneOf(p, s);
    if !Terminal(s) && w < |l.phases| && Holds(l, w, l.phases[w]) {
      var t := l.queue.held[w].value;
      HeldIsKnown(hash, p, s, w);
      var p1 := WithLane(p, s, InPhase(l, w, Finishing));
      match l.phases[w]
      case Enqueueing(to) =>
        PhaseLane(p.sys, l, s, w, Finishing);
        OfferRouted(hash, p1, t, to);
      case Failing =>
        SysRouted(hash, p, FailWritten(t, s));
      case _ =>
    }
  }

  lemma {:induction false} MoveRouted(hash: string -> nat, p: Pipe, m: Move)
    requires PipeOk(p) && PipeRouted(hash, p) && MoveLegal(p, m)
    ensures PipeRouted(hash, PipeStep(hash, p, m))
  {
    match m
    case Took(s, w) =>
      if !Terminal(s) && CanTake(LaneOf(p, s).queue, w) {
        TakeRouted(hash, p.sys.db.txns, s, LaneOf(p, s).queue, w);
      }
    case TurnedAway(_, _) =>
    case Broke(_, _) =>
    case Tried(s, w, env) =>
      if !Terminal(s) && Holds(LaneOf(p, s), w, Fresh) {
        SysRouted(hash, p, StageTried(LaneOf(p, s).queue.held[w].value, s, env));
      }
    case Followed(s, w) =>
      FollowedRouted(hash, p, s, w);
    case Done(s, w) =>
      if !Terminal(s) && Holds(LaneOf(p, s), w, Finishing) {
        FinishRouted(hash, p.sys.db.txns, s, LaneOf(p, s).queue, w);
      }
    case Offered(t, status) =>
      OfferRouted(hash, p, t, status);
    case Crashed =>
      NewRouted(hash, p.sys.db.txns, Init, |p.init.queue.channels|, p.init.queue.size);
      NewRouted(hash, p.sys.db.txns, PaySuccess, |p.pay.queue.channels|, p.pay.queue.size);
    case Outside(e) =>
      SysRouted(hash, p, e);
  }

  lemma {:induction false} RunRouted(hash: string -> nat, p: Pipe, moves: seq<Move>)
    requires PipeOk(p) && p.sys == START && PipeRouted(hash, p) && MovesLegal(hash, p, moves)
    ensures PipeRouted(hash, PipeAfter(hash, p, moves))
  {
    if moves == [] {
    } else {
      var n := |moves| - 1;
      RunRouted(hash, p, moves[..n]);
      RunFromStart(hash, p, moves[..n]);
      MoveRouted(hash, PipeAfter(hash, p, moves[..n]), moves[n]);
    }
  }

  lemma {:induction false} PipelineRouted(hash: string -> nat, z: Sizes, moves: seq<Move>)
    requires PipelineLegal(hash, z, moves)
    ensures PipeRouted(hash, PipeOf(hash, z, moves))
  {
    StartOk(z.initWorkers, z.initSize, z.payWorkers, z.paySize);
    NewRouted(hash, map[], Init, z.initWorkers, z.initSize);
    NewRouted(hash, map[], PaySuccess, z.payWorkers, z.paySize);
    RunRouted(hash, StartOf(z), moves);
  }

  /** One worker per account: after any run of the pipeline, two transactions that wait or are worked
      on for the same stage and move the same account are with the same worker. */
  lemma {:induction false} OneWorkerPerAccount(hash: string -> nat, z: Sizes, moves: seq<Move>, s: Status, t: TxnNo,
                                               v: int, u: TxnNo, w: int)
    requires PipelineLegal(hash, z, moves) && !Terminal(s)
    requires var q := LaneOf(PipeOf(hash, z, moves), s).queue; With(q, t, v) && With(q, u, w)
    ensures var txns := PipeOf(hash, z, moves).sys.db.txns;
            && t in txns && u in txns
            && (MovedBy(txns[t], s) == MovedBy(txns[u], s) != "" ==> v == w)
  {
    PipelineRouted(hash, z, moves);
    PipelineIsLedgerRun(hash, z, moves);
    var p := PipeOf(hash, z, moves);
    var txns := p.sys.db.txns;
    assert With(LaneOf(p, s).queue, t, v) && With(LaneOf(p, s).queue, u, w);
    RouteIsAccount(p.sys.db.accounts, txns, s, t);
    RouteIsAccount(p.sys.db.accounts, txns, s, u);
  }

  // ---------- order of work ----------

  /** What a move that is no crash does to the queue of stage `s`. */
  function QueueEventOf(p: Pipe, m: Move, s: Status): seq<QueueEvent> {
    match m
    case Took(r, w) => if r == s then [Taken(w)] else []
    case Done(r, w) => if r == s && Holds(LaneOf(p, s), w, Finishing) then [Finished(w)] else []
    case Offered(t, to) => if to == s then [Enqueued(t, RouteKey(p.sys.db.txns, s, t))] else []
    case Followed(r, w) =>
      var l := LaneOf(p, r);
      if !Terminal(r) && Holds(l, w, Enqueueing(s))
      then [Enqueued(l.queue.held[w].value, RouteKey(p.sys.db.txns, s, l.queue.held[w].value))]
      else []
    case _ => []
  }

  /** What happened to the queue of stage `s` since the last crash. */
  function QueueEvents(hash: string -> nat, p: Pipe, moves: seq<Move>, s: Status): seq<QueueEvent> {
    if moves == [] || moves[|moves| - 1] == Crashed then []
    else
      var n := |moves| - 1;
      QueueEvents(hash, p, moves[..n], s) + QueueEventOf(PipeAfter(hash, p, moves[..n]), moves[n], s)
  }

  lemma {:induction false} FollowedIsQueueEvent(hash: string -> nat, p: Pipe, r: Status, w: nat, s: Status)
    requires !Terminal(s)
    ensures var q, es := LaneOf(p, s).queue, QueueEventOf(p, Followed(r, w), s);
            && |es| <= 1
            && LaneOf(FollowUp(hash, p, r, w), s).queue == if es == [] then q else QueueStep(hash, q, es[0])
  {
  }

  lemma {:induction false} MoveIsQueueEvent(hash: string -> nat, p: Pipe, m: Move, s: Status)
    requires |LaneOf(p, s).phases| == |LaneOf(p, s).queue.channels| && !Terminal(s) && m != Crashed
    ensures var q, es := LaneOf(p, s).queue, QueueEventOf(p, m, s);
            && |es| <= 1
            && LaneOf(PipeStep(hash, p, m), s).queue == if es == [] then q else QueueStep(hash, q, es[0])
  {
    if m.Followed? {
      FollowedIsQueueEvent(hash, p, m.stage, m.worker, s);
    }
  }

  lemma {:induction false} QueueEventAppends(hash: string -> nat, workers: int, size: int, run: seq<QueueEvent>,
                                             es: seq<QueueEvent>)
    requires |es| <= 1
    ensures var q := QueueRun(hash, workers, size, run);
            QueueRun(hash, workers, size, run + es) == if es == [] then q else QueueStep(hash, q, es[0])
  {
    if es == [] {
      assert run + es == run;
    } else {
      assert (run + es)[..|run|] == run && (run + es)[|run|] == es[0];
    }
  }

  function WorkersOf(z: Sizes, s: Status): int {
    if s == Init then z.initWorkers else z.payWorkers
  }

  function SizeOf(z: Sizes, s: Status): int {
    if s == Init then z.initSize else z.paySize
  }

  lemma {:induction false} QueueShape(hash: string -> nat, q: Queue, e: QueueEvent)
    requires |q.channels| > 0
    ensures var q1 := QueueStep(hash, q, e); |q1.channels| == |q.channels| && q1.size == q.size
  {
  }

  /** A queue keeps the number of its workers and its room, also over a crash. */
  lemma {:induction false} LaneShape(hash: string -> nat, z: Sizes, moves: seq<Move>, s: Status)
    requires PipelineLegal(hash, z, moves) && !Terminal(s)
    ensures var q, q0 := LaneOf(PipeOf(hash, z, moves), s).queue, NewQueue(WorkersOf(z, s), SizeOf(z, s));
            |q.channels| == |q0.channels| && q.size == q0.size
  {
    if moves == [] {
    } else {
      var n := |moves| - 1;
      LaneShape(hash, z, moves[..n], s);
      if moves[n] != Crashed {
        PipelineIsLedgerRun(hash, z, moves[..n]);
        var p := PipeOf(hash, z, moves[..n]);
        MoveIsQueueEvent(hash, p, moves[n], s);
        if QueueEventOf(p, moves[n], s) != [] {
          QueueShape(hash, LaneOf(p, s).queue, QueueEventOf(p, moves[n], s)[0]);
        }
      }
    }
  }

  /** Between crashes each queue of the pipeline goes through a run of a queue. */
  lemma {:induction false} LaneIsQueueRun(hash: string -> nat, z: Sizes, moves: seq<Move>, s: Status)
    requires PipelineLegal(hash, z, moves) && !Terminal(s)
    ensures LaneOf(PipeOf(hash, z, moves), s).queue
         == QueueRun(hash, WorkersOf(z, s), SizeOf(z, s), QueueEvents(hash, StartOf(z), moves, s))
  {
    if moves == [] {
    } else {
      var n := |moves| - 1;
      if moves[n] == Crashed {
        LaneShape(hash, z, moves[..n], s);
      } else {
        var p := PipeOf(hash, z, moves[..n]);
        LaneIsQueueRun(hash, z, moves[..n], s);
        PipelineIsLedgerRun(hash, z, moves[..n]);
        MoveIsQueueEvent(hash, p, moves[n], s);
        QueueEventAppends(hash, WorkersOf(z, s), SizeOf(z, s), QueueEvents(hash, StartOf(z), moves[..n], s),
                          QueueEventOf(p, moves[n], s));
      }
    }
  }

  /** What was enqueued is known and was routed as it would be now. */
  ghost predicate RoutedAs(txns: map<TxnNo, Txn>, s: Status, e: QueueEvent) {
    e.Enqueued? ==> e.txn in txns && e.route == RouteKey(txns, s, e.txn)
  }

  lemma {:induction false} RoutedAsStays(hash: string -> nat, p: Pipe, m: Move, s: Status, e: QueueEvent)
    requires PipeOk(p) && MoveLegal(p, m) && RoutedAs(p.sys.db.txns, s, e)
    ensures RoutedAs(PipeStep(hash, p, m).sys.db.txns, s, e)
  {
    MoveIsEvent(hash, p, m);
    var es := EventOf(p, m);
    if es != [] && e.Enqueued? {
      RouteStays(p.sys, es[0], s, e.txn);
    }
  }

  lemma {:induction false} MoveRoutes(hash: string -> nat, p: Pipe, m: Move, s: Status, e: QueueEvent)
    requires PipeOk(p) && PipeRouted(hash, p) && MoveLegal(p, m) && e in QueueEventOf(p, m, s)
    ensures RoutedAs(p.sys.db.txns, s, e)
  {
    if m.Followed? {
      HeldIsKnown(hash, p, m.stage, m.worker);
    }
  }

  lemma {:induction false} AllRouted(hash: string -> nat, z: Sizes, moves: seq<Move>, s: Status)
    requires PipelineLegal(hash, z, moves) && !Terminal(s)
    ensures forall e | e in QueueEvents(hash, StartOf(z), moves, s) ::
      RoutedAs(PipeOf(hash, z, moves).sys.db.txns, s, e)
  {
    if moves == [] || moves[|moves| - 1] == Crashed {
    } else {
      var n := |moves| - 1;
      var p := PipeOf(hash, z, moves[..n]);
      AllRouted(hash, z, moves[..n], s);
      PipelineIsLedgerRun(hash, z, moves[..n]);
      PipelineRouted(hash, z, moves[..n]);
      forall e | e in QueueEvents(hash, StartOf(z), moves, s)
        ensures RoutedAs(PipeOf(hash, z, moves).sys.db.txns, s, e)
      {
        if e in QueueEventOf(p, moves[n], s) {
          MoveRoutes(hash, p, moves[n], s, e);
        }
        RoutedAsStays(hash, p, moves[n], s, e);
      }
    }
  }

  /** The transactions whose stage `s` moves account `a`. */
  function MovesAccount(txns: map<TxnNo, Txn>, s: Status, a: AccountNo): TxnNo -> bool {
    (t: TxnNo) => t in txns && MovedBy(txns[t], s) == a
  }

  /** Order of work: after any run of the pipeline, the jobs of a stage that move one account have
      been taken, since the last crash and by whichever worker, in the order they were accepted; those
      not taken yet wait, in that order, with the account's worker. */
  lemma {:induction false} TakenAsAccepted(hash: string -> nat, z: Sizes, moves: seq<Move>, s: Status, a: AccountNo)
    requires PipelineLegal(hash, z, moves) && !Terminal(s) && a != ""
    ensures var p, es := PipeOf(hash, z, moves), QueueEvents(hash, StartOf(z), moves, s);
            var q, on := LaneOf(p, s).queue, MovesAccount(p.sys.db.txns, s, a);
            && q == QueueRun(hash, WorkersOf(z, s), SizeOf(z, s), es)
            && Accepted(hash, WorkersOf(z, s), SizeOf(z, s), es, on)
               == Received(hash, WorkersOf(z, s), SizeOf(z, s), es, on)
                  + Filter(on, q.channels[WorkerIndex(hash, |q.channels|, a)])
  {
    var p, es := PipeOf(hash, z, moves), QueueEvents(hash, StartOf(z), moves, s);
    var n := |NewQueue(WorkersOf(z, s), SizeOf(z, s)).channels|;
    var w, on := WorkerIndex(hash, n, a), MovesAccount(p.sys.db.txns, s, a);
    LaneIsQueueRun(hash, z, moves, s);
    PipelineIsLedgerRun(hash, z, moves);
    AllRouted(hash, z, moves, s);
    forall e | e in es
      ensures SentTo(hash, n, e, on, w)
    {
      if e.Enqueued? && on(e.txn) {
        assert RoutedAs(p.sys.db.txns, s, e);
        RouteIsAccount(p.sys.db.accounts, p.sys.db.txns, s, e.txn);
      }
    }
    ReceivedInOrder(hash, WorkersOf(z, s), SizeOf(z, s), es, on, w);
  }
}
