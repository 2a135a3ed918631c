/** The asynchronous stage protocol: submissions and recovery offer transactions to two sharded
    queues, workers take them, ask a guard that may answer anything, try the stage, and only then
    enqueue or fail what they found. A crash loses all of it except the database. */
module Pipeline {
  import opened Domain
  import opened Ledger
  import opened Invariants
  import opened Runs
  import opened StageQueues
  import opened Guarantees

  /** Where a worker is with the item it holds. */
  datatype Phase = Free | Fresh | Enqueueing(to: Status) | Failing | Finishing

  datatype Lane = Lane(queue: Queue, phases: seq<Phase>)

  datatype Pipe = Pipe(sys: System, init: Lane, pay: Lane)

  /** A worker takes an item, is turned away by the guard, tries the stage, gets no answer, follows
      up what the stage's result calls for, or is done; somebody offers a transaction to a queue;
      the process crashes; or something else happens to the database. */
  datatype Move =
    | Took(stage: Status, worker: nat)
    | TurnedAway(stage: Status, worker: nat)
    | Tried(stage: Status, worker: nat, env: Env)
    | Broke(stage: Status, worker: nat)
    | Followed(stage: Status, worker: nat)
    | Done(stage: Status, worker: nat)
    | Offered(txn: TxnNo, status: Status)
    | Crashed
    | Outside(event: Event)

  function NewLane(workers: int, size: int): Lane {
    var q := NewQueue(workers, size);
    Lane(q, seq(|q.channels|, _ => Free))
  }

  function LaneOf(p: Pipe, stage: Status): Lane {
    if stage == Init then p.init else p.pay
  }

  function WithLane(p: Pipe, stage: Status, l: Lane): Pipe {
    if stage == Init then p.(init := l) else p.(pay := l)
  }

  /** stageRouteKey: the account a stage moves, a refund's origin's account, or the number itself. */
  function RouteKey(txns: map<TxnNo, Txn>, status: Status, t: TxnNo): string {
    if t !in txns then t
    else
      var x := txns[t];
      var own := if status == Init then x.debit else x.credit;
      if own != "" then own
      else if x.biz == Refund && x.refundOf.Some? then
        var o := x.refundOf.value;
        var other := if o !in txns then "" else if status == Init then txns[o].credit else txns[o].debit;
        if other != "" then other else o
      else t
  }

  /** enqueueByStatusWithTxn. */
  function Offer(hash: string -> nat, p: Pipe, t: TxnNo, status: Status): Pipe {
    if Terminal(status) then p
    else
      var l := LaneOf(p, status);
      WithLane(p, status, l.(queue := Enqueue(hash, l.queue, t, RouteKey(p.sys.db.txns, status, t)).1))
  }

  predicate Holds(l: Lane, w: nat, phase: Phase) {
    w < |l.phases| && w < |l.queue.held| && l.queue.held[w].Some? && l.phases[w] == phase
  }

  function InPhase(l: Lane, w: nat, phase: Phase): Lane
    requires w < |l.phases|
  {
    l.(phases := l.phases[w := phase])
  }

  /** What a worker does next, given how the database transaction of its stage ended. */
  function NextPhase(db: Db, t: TxnNo, stage: Status, r: Outcome): Phase {
    match r
    case Applied(_) => if stage == Init then Enqueueing(PaySuccess) else Finishing
    case Skipped(s) => Enqueueing(s)
    case Rejected(e) => if t in db.txns && FailsTxn(db.txns[t], stage, e) then Failing else Finishing
  }

  /** Worker `w` receives the next item of its channel. */
  function TakeUp(p: Pipe, s: Status, w: nat): Pipe {
    var l := LaneOf(p, s);
    if !Terminal(s) && CanTake(l.queue, w) && w < |l.phases|
    then WithLane(p, s, InPhase(l.(queue := Take(l.queue, w)), w, Fresh))
    else p
  }

  /** The guard says no, or the guard or the database does not answer: the item is given up. */
  function GiveUp(p: Pipe, s: Status, w: nat): Pipe {
    var l := LaneOf(p, s);
    if !Terminal(s) && Holds(l, w, Fresh) then WithLane(p, s, InPhase(l, w, Finishing)) else p
  }

  /** The worker tries the stage in one database transaction. */
  function TryOut(p: Pipe, s: Status, w: nat, env: Env): Pipe {
    var l := LaneOf(p, s);
    if !Terminal(s) && Holds(l, w, Fresh) then
      var t := l.queue.held[w].value;
      var phase := NextPhase(p.sys.db, t, s, Stage(p.sys.db, t, s, env));
      WithLane(p, s, InPhase(l, w, phase)).(sys := Step(p.sys, StageTried(t, s, env)))
    else p
  }

  /** The worker does what the result of its stage called for. */
  function FollowUp(hash: string -> nat, p: Pipe, s: Status, w: nat): Pipe {
    var l := LaneOf(p, s);
    if !Terminal(s) && w < |l.phases| && Holds(l, w, l.phases[w]) then
      var t := l.queue.held[w].value;
      match l.phases[w]
      case Enqueueing(to) => Offer(hash, WithLane(p, s, InPhase(l, w, Finishing)), t, to)
      case Failing => WithLane(p, s, InPhase(l, w, Finishing)).(sys := Step(p.sys, FailWritten(t, s)))
      case _ => p
    else p
  }

  function PutDown(p: Pipe, s: Status, w: nat): Pipe {
    var l := LaneOf(p, s);
    if !Terminal(s) && Holds(l, w, Finishing)
    then WithLane(p, s, InPhase(l.(queue := Finish(l.queue, w)), w, Free))
    else p
  }

  function PipeStep(hash: string -> nat, p: Pipe, m: Move): Pipe {
    match m
    case Took(s, w) => TakeUp(p, s, w)
    case TurnedAway(s, w) => GiveUp(p, s, w)
    case Broke(s, w) => GiveUp(p, s, w)
    case Tried(s, w, env) => TryOut(p, s, w, env)
    case Followed(s, w) => FollowUp(hash, p, s, w)
    case Done(s, w) => PutDown(p, s, w)
    case Offered(t, status) => Offer(hash, p, t, status)
    case Crashed =>
      p.(init := NewLane(|p.init.queue.channels|, p.init.queue.size),
         pay := NewLane(|p.pay.queue.channels|, p.pay.queue.size))
    case Outside(e) => p.(sys := Step(p.sys, e))
  }

  /** What a move does to the database. */
  function EventOf(p: Pipe, m: Move): seq<Event> {
    match m
    case Tried(s, w, env) =>
      var l := LaneOf(p, s);
      if !Terminal(s) && Holds(l, w, Fresh) then [StageTried(l.queue.held[w].value, s, env)] else []
    case Followed(s, w) =>
      var l := LaneOf(p, s);
      if !Terminal(s) && Holds(l, w, Failing) then [FailWritten(l.queue.held[w].value, s)] else []
    case Outside(e) => [e]
    case _ => []
  }

  /** Only transactions in the table are offered, to the second queue only by someone who has seen
      them debited. */
  predicate MoveLegal(p: Pipe, m: Move) {
    match m
    case Tried(_, _, env) => ClockInRange(env.today)
    case Offered(t, s) => t in p.sys.db.txns && (s == PaySuccess ==> Debited(p.sys.db.txns[t].status))
    case Outside(e) => Legal(e)
    case _ => true
  }

  // ---------- the invariant ----------

  ghost predicate LaneOk(l: Lane) {
    && QueueOk(l.queue) && |l.phases| == |l.queue.channels|
    && forall w {:trigger l.phases[w]} | 0 <= w < |l.phases| :: l.phases[w] == Free <==> l.queue.held[w] == None
  }

  predicate SeenDebited(txns: map<TxnNo, Txn>, t: TxnNo) {
    t in txns && Debited(txns[t].status)
  }

  /** What worker `w` of a lane is about to do is still right, whatever others did meanwhile. */
  ghost predicate JobOk(sys: System, l: Lane, stage: Status, w: int)
    requires 0 <= w < |l.phases| && w < |l.queue.held|
  {
    l.queue.held[w].Some? ==>
      var t := l.queue.held[w].value;
      match l.phases[w]
      case Failing => (t, stage) in sys.tickets
      case Enqueueing(to) => to != Init && (to == PaySuccess ==> SeenDebited(sys.db.txns, t))
      case _ => true
  }

  ghost predicate JobsOk(sys: System, l: Lane, stage: Status) {
    forall w {:trigger JobOk(sys, l, stage, w)} | 0 <= w < |l.phases| && w < |l.queue.held| :: JobOk(sys, l, stage, w)
  }

  ghost predicate PipeOk(p: Pipe) {
    && SystemOk(p.sys) && LaneOk(p.init) && LaneOk(p.pay)
    && JobsOk(p.sys, p.init, Init) && JobsOk(p.sys, p.pay, PaySuccess)
    && forall t {:trigger SeenDebited(p.sys.db.txns, t)} | t in p.pay.queue.pending :: SeenDebited(p.sys.db.txns, t)
  }

  // ---------- lanes ----------

  lemma {:induction false} NewLaneOk(workers: int, size: int)
    ensures LaneOk(NewLane(workers, size)) && NewLane(workers, size).queue.pending == {}
    ensures Idle(NewLane(workers, size).queue)
  {
  }

  lemma {:induction false} TakeLane(sys: System, l: Lane, stage: Status, w: nat)
    requires LaneOk(l) && JobsOk(sys, l, stage) && CanTake(l.queue, w)
    ensures var l1 := InPhase(l.(queue := Take(l.queue, w)), w, Fresh);
            LaneOk(l1) && JobsOk(sys, l1, stage) && l1.queue.pending == l.queue.pending
  {
    TakeKeepsOk(l.queue, w);
    var l1 := InPhase(l.(queue := Take(l.queue, w)), w, Fresh);
    forall v | 0 <= v < |l1.phases| && v < |l1.queue.held|
      ensures JobOk(sys, l1, stage, v)
    {
      assert JobOk(sys, l, stage, v);
    }
  }

  lemma {:induction false} FinishLane(sys: System, l: Lane, stage: Status, w: nat)
    requires LaneOk(l) && JobsOk(sys, l, stage) && CanFinish(l.queue, w)
    ensures var l1 := InPhase(l.(queue := Finish(l.queue, w)), w, Free);
            LaneOk(l1) && JobsOk(sys, l1, stage) && l1.queue.pending <= l.queue.pending
  {
    FinishKeepsOk(l.queue, w);
    var l1 := InPhase(l.(queue := Finish(l.queue, w)), w, Free);
    forall v | 0 <= v < |l1.phases| && v < |l1.queue.held|
      ensures JobOk(sys, l1, stage, v)
    {
      assert JobOk(sys, l, stage, v);
    }
  }

  lemma {:induction false} PhaseLane(sys: System, l: Lane, stage: Status, w: nat, phase: Phase)
    requires LaneOk(l) && JobsOk(sys, l, stage) && w < |l.phases| && l.queue.held[w].Some? && phase != Free
    requires JobOk(sys, InPhase(l, w, phase), stage, w)
    ensures LaneOk(InPhase(l, w, phase)) && JobsOk(sys, InPhase(l, w, phase), stage)
  {
    var l1 := InPhase(l, w, phase);
    forall v | 0 <= v < |l1.phases| && v < |l1.queue.held|
      ensures JobOk(sys, l1, stage, v)
    {
      assert JobOk(sys, l, stage, v);
    }
  }

  /** Tickets stay, and a debited transaction stays debited. */
  ghost predicate SysGrows(sys: System, sys1: System) {
    && sys.tickets <= sys1.tickets
    && forall t {:trigger SeenDebited(sys1.db.txns, t)} | SeenDebited(sys.db.txns, t) :: SeenDebited(sys1.db.txns, t)
  }

  lemma {:induction false} StepGrows(sys: System, e: Event)
    requires SystemOk(sys) && Legal(e)
    ensures SystemOk(Step(sys, e)) && SysGrows(sys, Step(sys, e))
  {
    StepKeepsOk(sys, e);
    StepRows(sys, e);
    var txns, txns1 := sys.db.txns, Step(sys, e).db.txns;
    forall t | SeenDebited(txns, t)
      ensures SeenDebited(txns1, t)
    {
      assert RowStep(txns, t, txns1[t]);
    }
  }

  lemma {:induction false} JobsFrame(sys: System, sys1: System, l: Lane, stage: Status)
    requires JobsOk(sys, l, stage) && SysGrows(sys, sys1)
    ensures JobsOk(sys1, l, stage)
  {
    forall w | 0 <= w < |l.phases| && w < |l.queue.held|
      ensures JobOk(sys1, l, stage, w)
    {
      assert JobOk(sys, l, stage, w);
    }
  }

  /** Anything that happens to the database leaves the jobs in flight right. */
  lemma {:induction false} SysFrame(p: Pipe, sys1: System)
    requires PipeOk(p) && SystemOk(sys1) && SysGrows(p.sys, sys1)
    ensures PipeOk(p.(sys := sys1))
  {
    JobsFrame(p.sys, sys1, p.init, Init);
    JobsFrame(p.sys, sys1, p.pay, PaySuccess);
    forall t | t in p.pay.queue.pending
      ensures SeenDebited(sys1.db.txns, t)
    {
      assert SeenDebited(p.sys.db.txns, t);
    }
  }

  lemma {:induction false} OfferKeepsOk(hash: string -> nat, p: Pipe, t: TxnNo, status: Status)
    requires PipeOk(p) && (status == PaySuccess ==> SeenDebited(p.sys.db.txns, t))
    ensures PipeOk(Offer(hash, p, t, status)) && Offer(hash, p, t, status).sys == p.sys
  {
    if !Terminal(status) {
      var l := LaneOf(p, status);
      var key := RouteKey(p.sys.db.txns, status, t);
      EnqueueKeepsOk(hash, l.queue, t, key);
      RefusedOnlyAtLimit(hash, l.queue, t, key);
      var l1 := l.(queue := Enqueue(hash, l.queue, t, key).1);
      EnqueueLane(p.sys, l, l1, status);
      forall u | u in l1.queue.pending && status == PaySuccess
        ensures SeenDebited(p.sys.db.txns, u)
      {
        assert u == t || u in p.pay.queue.pending;
      }
    }
  }

  lemma {:induction false} EnqueueLane(sys: System, l: Lane, l1: Lane, stage: Status)
    requires LaneOk(l) && JobsOk(sys, l, stage) && QueueOk(l1.queue)
    requires l1.phases == l.phases && l1.queue.held == l.queue.held
    ensures LaneOk(l1) && JobsOk(sys, l1, stage)
  {
    forall v | 0 <= v < |l1.phases| && v < |l1.queue.held|
      ensures JobOk(sys, l1, stage, v)
    {
      assert JobOk(sys, l, stage, v);
    }
  }

  // ---------- every move ----------

  lemma {:induction false} HeldIsPending(l: Lane, w: nat)
    requires LaneOk(l) && w < |l.queue.held| && l.queue.held[w].Some?
    ensures l.queue.held[w].value in l.queue.pending
  {
    assert Held(l.queue, l.queue.held[w].value);
  }

  /** What a worker decides after its stage is right for the database as it is then. */
  lemma {:induction false} TriedJob(sys: System, t: TxnNo, stage: Status, env: Env)
    requires SystemOk(sys) && ClockInRange(env.today) && !Terminal(stage)
    requires stage == PaySuccess ==> SeenDebited(sys.db.txns, t)
    ensures var phase := NextPhase(sys.db, t, stage, Stage(sys.db, t, stage, env));
            var sys1 := Step(sys, StageTried(t, stage, env));
            && (phase == Failing ==> (t, stage) in sys1.tickets)
            && (phase.Enqueueing? ==> phase.to != Init && (phase.to == PaySuccess ==> SeenDebited(sys1.db.txns, t)))
            && phase != Free
  {
    if stage == Init && Stage(sys.db, t, Init, env).Applied? {
      StatusAfterDebit(sys.db, t, env, t);
    }
  }

  lemma {:induction false} TriedKeepsOk(p: Pipe, s: Status, w: nat, env: Env)
    requires PipeOk(p) && ClockInRange(env.today)
    ensures PipeOk(TryOut(p, s, w, env))
  {
    var l := LaneOf(p, s);
    if !Terminal(s) && Holds(l, w, Fresh) {
      var t := l.queue.held[w].value;
      HeldIsPending(l, w);
      assert s == PaySuccess ==> SeenDebited(p.sys.db.txns, t);
      TriedJob(p.sys, t, s, env);
      var sys1 := Step(p.sys, StageTried(t, s, env));
      StepGrows(p.sys, StageTried(t, s, env));
      SysFrame(p, sys1);
      PhaseLane(sys1, l, s, w, NextPhase(p.sys.db, t, s, Stage(p.sys.db, t, s, env)));
    }
  }

  lemma {:induction false} FollowedKeepsOk(hash: string -> nat, p: Pipe, s: Status, w: nat)
    requires PipeOk(p)
    ensures PipeOk(FollowUp(hash, p, s, w))
  {
    var l := LaneOf(p, s);
    if !Terminal(s) && w < |l.phases| && Holds(l, w, l.phases[w]) {
      var t := l.queue.held[w].value;
      assert JobOk(p.sys, l, s, w);
      PhaseLane(p.sys, l, s, w, Finishing);
      var p1 := WithLane(p, s, InPhase(l, w, Finishing));
      match l.phases[w]
      case Enqueueing(to) =>
        OfferKeepsOk(hash, p1, t, to);
      case Failing =>
        StepGrows(p.sys, FailWritten(t, s));
        SysFrame(p1, Step(p.sys, FailWritten(t, s)));
      case _ =>
    }
  }

  lemma {:induction false} TakeUpKeepsOk(p: Pipe, s: Status, w: nat)
    requires PipeOk(p)
    ensures PipeOk(TakeUp(p, s, w))
  {
    if !Terminal(s) && CanTake(LaneOf(p, s).queue, w) {
      TakeLane(p.sys, LaneOf(p, s), s, w);
    }
  }

  lemma {:induction false} GiveUpKeepsOk(p: Pipe, s: Status, w: nat)
    requires PipeOk(p)
    ensures PipeOk(GiveUp(p, s, w))
  {
    if !Terminal(s) && Holds(LaneOf(p, s), w, Fresh) {
      PhaseLane(p.sys, LaneOf(p, s), s, w, Finishing);
    }
  }

  lemma {:induction false} PutDownKeepsOk(p: Pipe, s: Status, w: nat)
    requires PipeOk(p)
    ensures PipeOk(PutDown(p, s, w))
  {
    if !Terminal(s) && Holds(LaneOf(p, s), w, Finishing) {
      FinishLane(p.sys, LaneOf(p, s), s, w);
    }
  }

  lemma {:induction false} PipeStepKeepsOk(hash: string -> nat, p: Pipe, m: Move)
    requires PipeOk(p) && MoveLegal(p, m)
    ensures PipeOk(PipeStep(hash, p, m))
  {
    match m
    case Took(s, w) =>
      TakeUpKeepsOk(p, s, w);
    case TurnedAway(s, w) =>
      GiveUpKeepsOk(p, s, w);
    case Broke(s, w) =>
      GiveUpKeepsOk(p, s, w);
    case Tried(s, w, env) =>
      TriedKeepsOk(p, s, w, env);
    case Followed(s, w) =>
      FollowedKeepsOk(hash, p, s, w);
    case Done(s, w) =>
      PutDownKeepsOk(p, s, w);
    case Offered(t, status) =>
      OfferKeepsOk(hash, p, t, status);
    case Crashed =>
      NewLaneOk(|p.init.queue.channels|, p.init.queue.size);
      NewLaneOk(|p.pay.queue.channels|, p.pay.queue.size);
    case Outside(e) =>
      StepGrows(p.sys, e);
      SysFrame(p, Step(p.sys, e));
  }

  /** Each move is at most one ledger event, and it is the event itself that changes the database:
      the queues, the guard and the jobs in memory add nothing. */
  lemma {:induction false} MoveIsEvent(hash: string -> nat, p: Pipe, m: Move)
    requires PipeOk(p) && MoveLegal(p, m)
    ensures var es := EventOf(p, m);
            && |es| <= 1 && AllLegal(es)
            && PipeStep(hash, p, m).sys == (if es == [] then p.sys else Step(p.sys, es[0]))
  {
  }

  // ---------- whole runs ----------

  function PipeStart(initWorkers: int, initSize: int, payWorkers: int, paySize: int): Pipe {
    Pipe(START, NewLane(initWorkers, initSize), NewLane(payWorkers, paySize))
  }

  lemma {:induction false} StartOk(iw: int, isz: int, pw: int, psz: int)
    ensures PipeOk(PipeStart(iw, isz, pw, psz))
  {
    EmptyInv();
    NewLaneOk(iw, isz);
    NewLaneOk(pw, psz);
  }

  /** The pipeline after a sequence of moves. */
  function PipeAfter(hash: string -> nat, p: Pipe, moves: seq<Move>): Pipe {
    if moves == [] then p
    else PipeStep(hash, PipeAfter(hash, p, moves[..|moves| - 1]), moves[|moves| - 1])
  }

  ghost predicate MovesLegal(hash: string -> nat, p: Pipe, moves: seq<Move>) {
    moves == [] ||
    var n := |moves| - 1;
    MovesLegal(hash, p, moves[..n]) && MoveLegal(PipeAfter(hash, p, moves[..n]), moves[n])
  }

  /** The ledger events of a run of the pipeline. */
  function EventsOf(hash: string -> nat, p: Pipe, moves: seq<Move>): seq<Event> {
    if moves == [] then []
    else
      var n := |moves| - 1;
      EventsOf(hash, p, moves[..n]) + EventOf(PipeAfter(hash, p, moves[..n]), moves[n])
  }

  lemma {:induction false} EventAppends(run: seq<Event>, es: seq<Event>, sys1: System)
    requires AllLegal(run) && AllLegal(es) && |es| <= 1
    requires sys1 == if es == [] then Run(run) else Step(Run(run), es[0])
    ensures AllLegal(run + es) && sys1 == Run(run + es)
  {
    if es == [] {
      assert run + es == run;
    } else {
      assert (run + es)[..|run|] == run && (run + es)[|run|] == es[0];
    }
  }

  lemma {:induction false} RunFromStart(hash: string -> nat, p: Pipe, moves: seq<Move>)
    requires PipeOk(p) && p.sys == START && MovesLegal(hash, p, moves)
    ensures PipeOk(PipeAfter(hash, p, moves)) && AllLegal(EventsOf(hash, p, moves))
    ensures PipeAfter(hash, p, moves).sys == Run(EventsOf(hash, p, moves))
  {
    if moves == [] {
    } else {
      var n := |moves| - 1;
      var q := PipeAfter(hash, p, moves[..n]);
      RunFromStart(hash, p, moves[..n]);
      PipeStepKeepsOk(hash, q, moves[n]);
      MoveIsEvent(hash, q, moves[n]);
      EventAppends(EventsOf(hash, p, moves[..n]), EventOf(q, moves[n]), PipeStep(hash, q, moves[n]).sys);
    }
  }

  /** How many workers and how much room each queue is given. */
  datatype Sizes = Sizes(initWorkers: int, initSize: int, payWorkers: int, paySize: int)

  function StartOf(z: Sizes): Pipe {
    PipeStart(z.initWorkers, z.initSize, z.payWorkers, z.paySize)
  }

  function PipeOf(hash: string -> nat, z: Sizes, moves: seq<Move>): Pipe {
    PipeAfter(hash, StartOf(z), moves)
  }

  /** The moves are legal one after the other, from an empty ledger and empty queues. */
  ghost predicate PipelineLegal(hash: string -> nat, z: Sizes, moves: seq<Move>) {
    MovesLegal(hash, StartOf(z), moves)
  }

  /** Safety of the protocol: whatever the guard answers, whatever is enqueued twice, lost in a
      crash or written late, the database of a pipeline run is the database of a ledger run. */
  lemma {:induction false} PipelineIsLedgerRun(hash: string -> nat, z: Sizes, moves: seq<Move>)
    requires PipelineLegal(hash, z, moves)
    ensures PipeOk(PipeOf(hash, z, moves)) && Reachable(PipeOf(hash, z, moves).sys.db)
    ensures var start := StartOf(z);
            AllLegal(EventsOf(hash, start, moves)) && PipeOf(hash, z, moves).sys == Run(EventsOf(hash, start, moves))
  {
    StartOk(z.initWorkers, z.initSize, z.payWorkers, z.paySize);
    RunFromStart(hash, StartOf(z), moves);
  }

  /** Exactly once, end to end: after any run of the pipeline every transaction has moved what its
      status says, once, and has at most one event. */
  lemma {:induction false} PipelineExactlyOnce(hash: string -> nat, z: Sizes, moves: seq<Move>, t: TxnNo)
    requires PipelineLegal(hash, z, moves)
    ensures var db := PipeOf(hash, z, moves).sys.db;
            && Moves(db.accountLog, t) == Expected(db.txns, t)
            && (forall i, j | 0 <= i < j < |db.outbox| :: !(db.outbox[i].txn == t && db.outbox[j].txn == t))
  {
    PipelineIsLedgerRun(hash, z, moves);
    ExactlyOnceAlways(PipeOf(hash, z, moves).sys.db, t);
  }
}
