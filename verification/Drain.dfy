/** Draining the queues: every move of a working worker leaves less to do, and no transaction that
    somebody takes care of is ever forgotten. */
module Drains {
  import opened Domain
  import opened Collections
  import opened Ledger
  import opened Invariants
  import opened Stages
  import opened Runs
  import opened StageQueues
  import opened Pipeline

  // ---------- the measure ----------

  function ItemWeight(stage: Status): nat {
    if stage == Init then 9 else 4
  }

  function ChannelWeight(stage: Status): seq<TxnNo> -> int {
    (c: seq<TxnNo>) => ItemWeight(stage) * |c|
  }

  function PhaseWeight(stage: Status): Phase -> int {
    (phase: Phase) =>
      match phase
      case Free => 0
      case Fresh => ItemWeight(stage) - 1
      case Enqueueing(_) => ItemWeight(stage) - 2
      case Failing => ItemWeight(stage) - 2
      case Finishing => 1
  }

  function LaneMeasure(stage: Status, l: Lane): int {
    SumBy(ChannelWeight(stage), l.queue.channels) + SumBy(PhaseWeight(stage), l.phases)
  }

  /** What is left to do: an item weighs more the further it is from done, and an item of the first
      queue more than the item of the second queue it may turn into. */
  function Measure(p: Pipe): int {
    LaneMeasure(Init, p.init) + LaneMeasure(PaySuccess, p.pay)
  }

  lemma {:induction false} SumUpdate<T>(f: T -> int, s: seq<T>, i: nat, x: T)
    requires i < |s|
    ensures SumBy(f, s[i := x]) == SumBy(f, s) - f(s[i]) + f(x)
  {
    if i == 0 {
      assert s[0 := x][1..] == s[1..];
    } else {
      assert s[i := x][1..] == s[1..][i - 1 := x];
      SumUpdate(f, s[1..], i - 1, x);
    }
  }

  lemma {:induction false} SumNonNegative<T>(f: T -> int, s: seq<T>)
    requires forall x: T :: f(x) >= 0
    ensures SumBy(f, s) >= 0
  {
    if s == [] {
    } else {
      SumNonNegative(f, s[1..]);
    }
  }

  lemma {:induction false} MeasureNonNegative(p: Pipe)
    ensures Measure(p) >= 0
  {
    SumNonNegative(ChannelWeight(Init), p.init.queue.channels);
    SumNonNegative(PhaseWeight(Init), p.init.phases);
    SumNonNegative(ChannelWeight(PaySuccess), p.pay.queue.channels);
    SumNonNegative(PhaseWeight(PaySuccess), p.pay.phases);
  }

  // ---------- draining ----------

  /** A worker that goes on with its work; its guard is free and its database answers. */
  predicate DrainMove(p: Pipe, m: Move) {
    match m
    case Took(s, w) => !Terminal(s) && CanTake(LaneOf(p, s).queue, w)
    case Tried(s, w, env) =>
      !Terminal(s) && Holds(LaneOf(p, s), w, Fresh) && ClockInRange(env.today)
      && var r := Stage(p.sys.db, LaneOf(p, s).queue.held[w].value, s, env); r.Rejected? ==> ShouldFail(r.error)
    case Followed(s, w) =>
      var l := LaneOf(p, s);
      !Terminal(s) && w < |l.phases| && (l.phases[w].Enqueueing? || l.phases[w].Failing?) && Holds(l, w, l.phases[w])
    case Done(s, w) => !Terminal(s) && Holds(LaneOf(p, s), w, Finishing)
    case _ => false
  }

  lemma {:induction false} TookMeasure(stage: Status, l: Lane, w: nat)
    requires LaneOk(l) && CanTake(l.queue, w)
    ensures LaneMeasure(stage, InPhase(l.(queue := Take(l.queue, w)), w, Fresh)) == LaneMeasure(stage, l) - 1
  {
    assert l.phases[w] == Free;
    SumUpdate(ChannelWeight(stage), l.queue.channels, w, l.queue.channels[w][1..]);
    SumUpdate(PhaseWeight(stage), l.phases, w, Fresh);
  }

  lemma {:induction false} PhaseMeasure(stage: Status, l: Lane, w: nat, phase: Phase)
    requires w < |l.phases|
    ensures LaneMeasure(stage, InPhase(l, w, phase))
         == LaneMeasure(stage, l) - PhaseWeight(stage)(l.phases[w]) + PhaseWeight(stage)(phase)
  {
    SumUpdate(PhaseWeight(stage), l.phases, w, phase);
  }

  lemma {:induction false} AppendMeasure(stage: Status, channels: seq<seq<TxnNo>>, w: nat, t: TxnNo)
    requires w < |channels|
    ensures SumBy(ChannelWeight(stage), channels[w := channels[w] + [t]])
         == SumBy(ChannelWeight(stage), channels) + ItemWeight(stage)
  {
    SumUpdate(ChannelWeight(stage), channels, w, channels[w] + [t]);
  }

  lemma {:induction false} EnqueueMeasure(hash: string -> nat, stage: Status, l: Lane, t: TxnNo, route: string)
    requires LaneOk(l)
    ensures var l1 := l.(queue := Enqueue(hash, l.queue, t, route).1);
            LaneMeasure(stage, l1) <= LaneMeasure(stage, l) + ItemWeight(stage)
  {
    RefusedOnlyAtLimit(hash, l.queue, t, route);
    if Accepts(l.queue, t) {
      var w := WorkerIndex(hash, |l.queue.channels|, ShardKey(t, route));
      AppendMeasure(stage, l.queue.channels, w, t);
    }
  }

  lemma {:induction false} FollowedDescends(hash: string -> nat, p: Pipe, s: Status, w: nat)
    requires PipeOk(p) && DrainMove(p, Followed(s, w))
    ensures Measure(FollowUp(hash, p, s, w)) < Measure(p)
  {
    var l := LaneOf(p, s);
    assert JobOk(p.sys, l, s, w);
    if l.phases[w] == Failing {
      PhaseMeasure(s, l, w, Finishing);
    } else {
      OfferDescends(hash, p, s, w);
    }
  }

  lemma {:induction false} OfferDescends(hash: string -> nat, p: Pipe, s: Status, w: nat)
    requires PipeOk(p) && !Terminal(s) && w < |LaneOf(p, s).phases|
    requires LaneOf(p, s).phases[w].Enqueueing? && Holds(LaneOf(p, s), w, LaneOf(p, s).phases[w])
    ensures var l := LaneOf(p, s);
            var p1 := WithLane(p, s, InPhase(l, w, Finishing));
            Measure(Offer(hash, p1, l.queue.held[w].value, l.phases[w].to)) < Measure(p)
  {
    var l := LaneOf(p, s);
    var t := l.queue.held[w].value;
    assert JobOk(p.sys, l, s, w);
    PhaseMeasure(s, l, w, Finishing);
    if l.phases[w].to == PaySuccess {
      PhaseLane(p.sys, l, s, w, Finishing);
      var p1 := WithLane(p, s, InPhase(l, w, Finishing));
      EnqueueMeasure(hash, PaySuccess, p1.pay, t, RouteKey(p.sys.db.txns, PaySuccess, t));
    }
  }

  lemma {:induction false} TriedDescends(p: Pipe, s: Status, w: nat, env: Env)
    requires PipeOk(p) && DrainMove(p, Tried(s, w, env))
    ensures Measure(TryOut(p, s, w, env)) < Measure(p)
  {
    var t := LaneOf(p, s).queue.held[w].value;
    HeldIsPending(LaneOf(p, s), w);
    assert s == PaySuccess ==> SeenDebited(p.sys.db.txns, t);
    TriedJob(p.sys, t, s, env);
    PhaseMeasure(s, LaneOf(p, s), w, NextPhase(p.sys.db, t, s, Stage(p.sys.db, t, s, env)));
  }

  lemma {:induction false} TookDescends(p: Pipe, s: Status, w: nat)
    requires LaneOk(LaneOf(p, s)) && !Terminal(s) && CanTake(LaneOf(p, s).queue, w)
    ensures Measure(TakeUp(p, s, w)) < Measure(p)
  {
    TookMeasure(s, LaneOf(p, s), w);
  }

  lemma {:induction false} DoneDescends(p: Pipe, s: Status, w: nat)
    requires !Terminal(s) && Holds(LaneOf(p, s), w, Finishing)
    ensures Measure(PutDown(p, s, w)) < Measure(p)
  {
    PhaseMeasure(s, LaneOf(p, s).(queue := Finish(LaneOf(p, s).queue, w)), w, Free);
  }

  /** Every move of a working worker leaves less to do. */
  lemma {:induction false} DrainDescends(hash: string -> nat, p: Pipe, m: Move)
    requires PipeOk(p) && DrainMove(p, m)
    ensures Measure(PipeStep(hash, p, m)) < Measure(p)
  {
    match m
    case Took(s, w) =>
      TookDescends(p, s, w);
    case Tried(s, w, env) =>
      TriedDescends(p, s, w, env);
    case Followed(s, w) =>
      FollowedDescends(hash, p, s, w);
    case Done(s, w) =>
      DoneDescends(p, s, w);
  }

  // ---------- nothing is forgotten ----------

  predicate Doing(l: Lane, t: TxnNo, phase: Phase) {
    exists w: nat {:trigger Holds(l, w, phase)} | w < |l.phases| :: Holds(l, w, phase) && l.queue.held[w] == Some(t)
  }

  /** The stage of this lane will still be tried for `t`. */
  predicate Waits(l: Lane, t: TxnNo) {
    Queued(l.queue, t) || Doing(l, t, Fresh)
  }

  /** Somebody will take `t` out of the status it is in. */
  predicate Covered(p: Pipe, t: TxnNo)
    requires t in p.sys.db.txns
  {
    match p.sys.db.txns[t].status
    case Init => Waits(p.init, t) || Doing(p.init, t, Failing)
    case PaySuccess => Waits(p.pay, t) || Doing(p.init, t, Enqueueing(PaySuccess))
    case _ => true
  }

  lemma {:induction false} StillDoing(l: Lane, l1: Lane, t: TxnNo, phase: Phase)
    requires Doing(l, t, phase) && |l1.phases| == |l.phases| && |l1.queue.held| == |l.queue.held|
    requires forall v: nat | Holds(l, v, phase) && l.queue.held[v] == Some(t) ::
      l1.phases[v] == l.phases[v] && l1.queue.held[v] == l.queue.held[v]
    ensures Doing(l1, t, phase)
  {
    var v: nat :| v < |l.phases| && Holds(l, v, phase) && l.queue.held[v] == Some(t);
    assert Holds(l1, v, phase);
  }

  lemma {:induction false} TakeCovers(l: Lane, w: nat, t: TxnNo)
    requires LaneOk(l) && CanTake(l.queue, w)
    ensures var l1 := InPhase(l.(queue := Take(l.queue, w)), w, Fresh);
            && (Waits(l, t) ==> Waits(l1, t))
            && (forall phase :: phase != Free && Doing(l, t, phase) ==> Doing(l1, t, phase))
  {
    var l1 := InPhase(l.(queue := Take(l.queue, w)), w, Fresh);
    assert l.phases[w] == Free;
    forall phase | phase != Free && Doing(l, t, phase)
      ensures Doing(l1, t, phase)
    {
      StillDoing(l, l1, t, phase);
    }
    if Queued(l.queue, t) {
      var v :| 0 <= v < |l.queue.channels| && t in l.queue.channels[v];
      if v == w && t == l.queue.channels[w][0] {
        assert Holds(l1, w, Fresh);
      } else {
        assert t in l1.queue.channels[v];
      }
    }
  }

  /** A worker that holds something else changes nothing for `t`. */
  lemma {:induction false} OtherPhase(l: Lane, w: nat, phase: Phase, t: TxnNo)
    requires w < |l.phases| == |l.queue.held| && l.queue.held[w] != Some(t)
    ensures Waits(l, t) ==> Waits(InPhase(l, w, phase), t)
    ensures forall ph :: Doing(l, t, ph) ==> Doing(InPhase(l, w, phase), t, ph)
  {
    forall ph | Doing(l, t, ph)
      ensures Doing(InPhase(l, w, phase), t, ph)
    {
      StillDoing(l, InPhase(l, w, phase), t, ph);
    }
  }

  /** Leaving one phase hides nothing that is in another. */
  lemma {:induction false} LeavePhase(l: Lane, w: nat, phase: Phase, t: TxnNo, ph: Phase)
    requires w < |l.phases| == |l.queue.held| && l.phases[w] != ph
    ensures Doing(l, t, ph) ==> Doing(InPhase(l, w, phase), t, ph)
  {
    if Doing(l, t, ph) {
      StillDoing(l, InPhase(l, w, phase), t, ph);
    }
  }

  lemma {:induction false} FinishCovers(l: Lane, w: nat, t: TxnNo)
    requires LaneOk(l) && Holds(l, w, Finishing)
    ensures var l1 := InPhase(l.(queue := Finish(l.queue, w)), w, Free);
            && (Waits(l, t) ==> Waits(l1, t))
            && (forall phase :: phase != Finishing && Doing(l, t, phase) ==> Doing(l1, t, phase))
  {
    var l1 := InPhase(l.(queue := Finish(l.queue, w)), w, Free);
    forall phase | phase != Finishing && Doing(l, t, phase)
      ensures Doing(l1, t, phase)
    {
      StillDoing(l, l1, t, phase);
    }
  }

  lemma {:induction false} EnqueueCovers(hash: string -> nat, l: Lane, t: TxnNo, route: string, u: TxnNo)
    requires LaneOk(l)
    ensures var l1 := l.(queue := Enqueue(hash, l.queue, t, route).1);
            && (Waits(l, u) ==> Waits(l1, u))
            && (forall phase :: Doing(l, u, phase) ==> Doing(l1, u, phase))
            && (Accepts(l.queue, t) ==> Waits(l1, t))
  {
    RefusedOnlyAtLimit(hash, l.queue, t, route);
    var l1 := l.(queue := Enqueue(hash, l.queue, t, route).1);
    forall phase | Doing(l, u, phase)
      ensures Doing(l1, u, phase)
    {
      StillDoing(l, l1, u, phase);
    }
    if Accepts(l.queue, t) {
      var w := WorkerIndex(hash, |l.queue.channels|, ShardKey(t, route));
      assert t in l1.queue.channels[w];
      if Queued(l.queue, u) {
        var v :| 0 <= v < |l.queue.channels| && u in l.queue.channels[v];
        assert u in l1.queue.channels[v];
      }
    }
  }

  /** The worker is past trying the stage and not about to fail the transaction. */
  predicate Past(phase: Phase) {
    phase.Enqueueing? || phase.Finishing?
  }

  /** A worker that is past its stage holds a transaction that has left the status of that stage. */
  ghost predicate Ended(p: Pipe, s: Status, w: int)
    requires 0 <= w < |LaneOf(p, s).phases| && w < |LaneOf(p, s).queue.held|
  {
    var l := LaneOf(p, s);
    l.queue.held[w].Some? && Past(l.phases[w]) ==>
      var t := l.queue.held[w].value;
      t in p.sys.db.txns ==> p.sys.db.txns[t].status != s
  }

  ghost predicate LaneEnded(p: Pipe, s: Status) {
    forall w {:trigger Ended(p, s, w)} | 0 <= w < |LaneOf(p, s).phases| && w < |LaneOf(p, s).queue.held| ::
      Ended(p, s, w)
  }

  ghost predicate AllEnded(p: Pipe) {
    LaneEnded(p, Init) && LaneEnded(p, PaySuccess)
  }

  ghost predicate AllCovered(p: Pipe) {
    forall t {:trigger Covered(p, t)} | t in p.sys.db.txns :: Covered(p, t)
  }

  /** The transactions a drain has to deal with, and room for all of them in both queues. */
  ghost predicate Fits(p: Pipe, stuck: set<TxnNo>) {
    && |stuck| <= p.init.queue.size && |stuck| <= p.pay.queue.size
    && p.init.queue.pending <= stuck && p.pay.queue.pending <= stuck
    && forall t | t in p.sys.db.txns && !Terminal(p.sys.db.txns[t].status) :: t in stuck
  }

  /** Workers at work, and nothing in their way. */
  ghost predicate Working(p: Pipe, stuck: set<TxnNo>) {
    PipeOk(p) && AllEnded(p) && Fits(p, stuck)
  }

  ghost predicate Draining(p: Pipe, stuck: set<TxnNo>) {
    Working(p, stuck) && AllCovered(p)
  }

  // ---------- the stage ----------

  /** After a stage that met no infrastructure error its worker covers the transaction. */
  lemma {:induction false} TriedNext(sys: System, t: TxnNo, stage: Status, env: Env)
    requires SystemOk(sys) && ClockInRange(env.today) && !Terminal(stage) && t in sys.db.txns
    requires var r := Stage(sys.db, t, stage, env); r.Rejected? ==> ShouldFail(r.error)
    requires stage == PaySuccess ==> SeenDebited(sys.db.txns, t)
    ensures var sys1 := Step(sys, StageTried(t, stage, env));
            var phase := NextPhase(sys.db, t, stage, Stage(sys.db, t, stage, env));
            && t in sys1.db.txns
            && (sys1.db.txns[t].status == Init ==> stage == Init && phase == Failing)
            && (sys1.db.txns[t].status == PaySuccess ==> stage == Init && phase == Enqueueing(PaySuccess))
  {
    StepRows(sys, StageTried(t, stage, env));
    StageKeepsInv(sys.db, t, stage, env);
    if Stage(sys.db, t, stage, env).Applied? {
      StageStatuses(sys.db, t, stage, env, t);
    }
  }

  lemma {:induction false} TriedOthers(sys: System, t: TxnNo, stage: Status, env: Env, u: TxnNo)
    requires SystemOk(sys) && ClockInRange(env.today) && !Terminal(stage) && u != t
    requires u in Step(sys, StageTried(t, stage, env)).db.txns
    ensures var status := Step(sys, StageTried(t, stage, env)).db.txns[u].status;
            status == if u in sys.db.txns then sys.db.txns[u].status else RecvSuccess
  {
    if Stage(sys.db, t, stage, env).Applied? {
      StageStatuses(sys.db, t, stage, env, u);
    }
  }

  lemma {:induction false} TriedCovers(p: Pipe, s: Status, w: nat, env: Env, u: TxnNo)
    requires PipeOk(p) && DrainMove(p, Tried(s, w, env)) && (u in p.sys.db.txns ==> Covered(p, u))
    requires u in TryOut(p, s, w, env).sys.db.txns
    ensures Covered(TryOut(p, s, w, env), u)
  {
    var l := LaneOf(p, s);
    var t := l.queue.held[w].value;
    var phase := NextPhase(p.sys.db, t, s, Stage(p.sys.db, t, s, env));
    HeldIsPending(l, w);
    assert s == PaySuccess ==> SeenDebited(p.sys.db.txns, t);
    if u != t {
      TriedOthers(p.sys, t, s, env, u);
      OtherPhase(l, w, phase, u);
    } else if t in p.sys.db.txns {
      TriedNext(p.sys, t, s, env);
      assert Holds(InPhase(l, w, phase), w, phase);
    }
  }

  lemma {:induction false} TriedEnds(p: Pipe, s: Status, w: nat, env: Env, r: Status, v: nat)
    requires PipeOk(p) && AllEnded(p) && DrainMove(p, Tried(s, w, env)) && !Terminal(r) && v < |LaneOf(p, r).phases|
    ensures Ended(TryOut(p, s, w, env), r, v)
  {
    var t := LaneOf(p, s).queue.held[w].value;
    HeldIsPending(LaneOf(p, s), w);
    assert s == PaySuccess ==> SeenDebited(p.sys.db.txns, t);
    assert Ended(p, r, v);
    if LaneOf(p, r).queue.held[v].Some? {
      var u := LaneOf(p, r).queue.held[v].value;
      HeldIsPending(LaneOf(p, r), v);
      assert r == PaySuccess ==> SeenDebited(p.sys.db.txns, u);
      EndsOf(p.sys, t, s, env, u, r);
    }
  }

  /** What a stage makes of the status of a transaction some worker holds. */
  lemma {:induction false} EndsOf(sys: System, t: TxnNo, s: Status, env: Env, u: TxnNo, r: Status)
    requires SystemOk(sys) && ClockInRange(env.today) && !Terminal(s) && !Terminal(r)
    requires var o := Stage(sys.db, t, s, env); o.Rejected? ==> ShouldFail(o.error)
    requires (s == PaySuccess ==> SeenDebited(sys.db.txns, t)) && (r == PaySuccess ==> SeenDebited(sys.db.txns, u))
    ensures var txns, txns1 := sys.db.txns, Step(sys, StageTried(t, s, env)).db.txns;
            var phase := NextPhase(sys.db, t, s, Stage(sys.db, t, s, env));
            && (u in txns1 && txns1[u].status == r ==> u in txns && txns[u].status == r)
            && (u in txns1 && u == t && s == r && txns1[u].status == r ==> !Past(phase))
  {
    StepRows(sys, StageTried(t, s, env));
    if u in Step(sys, StageTried(t, s, env)).db.txns {
      if u != t {
        TriedOthers(sys, t, s, env, u);
      } else if t in sys.db.txns {
        TriedNext(sys, t, s, env);
        assert RowStep(sys.db.txns, t, Step(sys, StageTried(t, s, env)).db.txns[t]);
      }
    }
  }

  // ---------- the follow-up ----------

  /** There is room in the second queue for what the first one passes on. */
  lemma {:induction false} RoomInPay(p: Pipe, stuck: set<TxnNo>, t: TxnNo)
    requires PipeOk(p) && Fits(p, stuck) && t in stuck && t !in p.pay.queue.pending && t != ""
    ensures Accepts(p.pay.queue, t)
  {
    Smaller(p.pay.queue.pending, stuck, t);
  }

  lemma Smaller<T>(a: set<T>, b: set<T>, x: T)
    requires a <= b && x in b && x !in a
    ensures |a| < |b|
  {
    assert b == a + (b - a);
    assert x in b - a;
  }

  lemma {:induction false} PassedOn(hash: string -> nat, p: Pipe, stuck: set<TxnNo>, t: TxnNo)
    requires Working(p, stuck)
    requires t in p.sys.db.txns && p.sys.db.txns[t].status == PaySuccess && t != ""
    ensures Waits(Offer(hash, p, t, PaySuccess).pay, t)
  {
    var q := p.pay.queue;
    EnqueueCovers(hash, p.pay, t, RouteKey(p.sys.db.txns, PaySuccess, t), t);
    if t !in q.pending {
      RoomInPay(p, stuck, t);
    } else if !Queued(q, t) {
      assert Held(q, t);
      var w :| 0 <= w < |q.held| && q.held[w] == Some(t);
      assert Ended(p, PaySuccess, w) && JobOk(p.sys, p.pay, PaySuccess, w);
      assert Holds(p.pay, w, Fresh);
    }
  }

  /** An offered INIT transaction will be taken care of. */
  lemma {:induction false} OfferedInit(hash: string -> nat, p: Pipe, stuck: set<TxnNo>, t: TxnNo)
    requires Working(p, stuck) && t in p.sys.db.txns && p.sys.db.txns[t].status == Init && t != ""
    ensures Covered(Offer(hash, p, t, Init), t)
  {
    var q := p.init.queue;
    EnqueueCovers(hash, p.init, t, RouteKey(p.sys.db.txns, Init, t), t);
    if t !in q.pending {
      Smaller(q.pending, stuck, t);
    } else if !Queued(q, t) {
      assert Held(q, t);
      var w :| 0 <= w < |q.held| && q.held[w] == Some(t);
      assert Ended(p, Init, w);
      assert Holds(p.init, w, p.init.phases[w]);
    }
  }

  lemma {:induction false} AboutToFinish(p: Pipe, stuck: set<TxnNo>, s: Status, w: nat)
    requires Working(p, stuck) && DrainMove(p, Followed(s, w)) && LaneOf(p, s).phases[w].Enqueueing?
    ensures Working(WithLane(p, s, InPhase(LaneOf(p, s), w, Finishing)), stuck)
  {
    PhaseLane(p.sys, LaneOf(p, s), s, w, Finishing);
    var p1 := WithLane(p, s, InPhase(LaneOf(p, s), w, Finishing));
    forall r, v | !Terminal(r) && 0 <= v < |LaneOf(p1, r).phases| && v < |LaneOf(p1, r).queue.held|
      ensures Ended(p1, r, v)
    {
      assert Ended(p, r, v);
    }
  }

  /** Whoever holds something in a phase other than this worker's is not affected by it. */
  lemma {:induction false} FinishingCovers(p: Pipe, s: Status, w: nat, u: TxnNo)
    requires PipeOk(p) && DrainMove(p, Followed(s, w)) && LaneOf(p, s).phases[w].Enqueueing?
    requires u in p.sys.db.txns && Covered(p, u)
    requires || LaneOf(p, s).phases[w] != Enqueueing(PaySuccess)
             || LaneOf(p, s).queue.held[w] != Some(u)
             || p.sys.db.txns[u].status != PaySuccess
    ensures Covered(WithLane(p, s, InPhase(LaneOf(p, s), w, Finishing)), u)
  {
    var l := LaneOf(p, s);
    LeavePhase(l, w, Finishing, u, Fresh);
    LeavePhase(l, w, Finishing, u, Failing);
    if l.queue.held[w] != Some(u) {
      OtherPhase(l, w, Finishing, u);
    } else if l.phases[w] != Enqueueing(PaySuccess) {
      LeavePhase(l, w, Finishing, u, Enqueueing(PaySuccess));
    }
  }

  lemma {:induction false} OfferCovers(hash: string -> nat, p: Pipe, t: TxnNo, to: Status, u: TxnNo)
    requires PipeOk(p) && u in p.sys.db.txns && Covered(p, u)
    ensures Covered(Offer(hash, p, t, to), u)
  {
    if !Terminal(to) {
      EnqueueCovers(hash, LaneOf(p, to), t, RouteKey(p.sys.db.txns, to, t), u);
    }
  }

  lemma {:induction false} EnqueuedCovers(hash: string -> nat, p: Pipe, stuck: set<TxnNo>, s: Status, w: nat, u: TxnNo)
    requires Working(p, stuck) && DrainMove(p, Followed(s, w)) && LaneOf(p, s).phases[w].Enqueueing?
    requires u in p.sys.db.txns && Covered(p, u)
    ensures var l := LaneOf(p, s);
            Covered(Offer(hash, WithLane(p, s, InPhase(l, w, Finishing)), l.queue.held[w].value, l.phases[w].to), u)
  {
    var l := LaneOf(p, s);
    var t, to := l.queue.held[w].value, l.phases[w].to;
    var p1 := WithLane(p, s, InPhase(l, w, Finishing));
    AboutToFinish(p, stuck, s, w);
    if to == PaySuccess && u == t && p.sys.db.txns[u].status == PaySuccess {
      HeldIsPending(l, w);
      PassedOn(hash, p1, stuck, t);
    } else {
      FinishingCovers(p, s, w, u);
      OfferCovers(hash, p1, t, to, u);
    }
  }

  /** Worker `w` of the first lane is about to write the failure it decided on. */
  ghost predicate AboutToFail(p: Pipe, w: nat) {
    LaneOk(p.init) && Holds(p.init, w, Failing) && (p.init.queue.held[w].value, Init) in p.sys.tickets
  }

  /** The pipeline once the failure is written. */
  function FailureWritten(p: Pipe, w: nat): Pipe
    requires Holds(p.init, w, Failing)
  {
    p.(init := InPhase(p.init, w, Finishing), sys := Step(p.sys, FailWritten(p.init.queue.held[w].value, Init)))
  }

  /** Only the first stage fails a transaction. */
  lemma {:induction false} FailsFromInit(hash: string -> nat, p: Pipe, s: Status, w: nat)
    requires PipeOk(p) && DrainMove(p, Followed(s, w)) && LaneOf(p, s).phases[w] == Failing
    ensures s == Init && AboutToFail(p, w) && FollowUp(hash, p, s, w) == FailureWritten(p, w)
  {
    assert JobOk(p.sys, LaneOf(p, s), s, w);
  }

  lemma {:induction false} FailedCovers(p: Pipe, w: nat, u: TxnNo)
    requires AboutToFail(p, w) && u in p.sys.db.txns && Covered(p, u)
    ensures u in FailureWritten(p, w).sys.db.txns && Covered(FailureWritten(p, w), u)
  {
    LeavePhase(p.init, w, Finishing, u, Fresh);
    LeavePhase(p.init, w, Finishing, u, Enqueueing(PaySuccess));
    if u != p.init.queue.held[w].value {
      OtherPhase(p.init, w, Finishing, u);
    }
  }

  /** Failing a transaction changes its own status only, and leaves no INIT behind. */
  lemma {:induction false} FailedEnds(p: Pipe, w: nat, r: Status, v: nat)
    requires AboutToFail(p, w) && !Terminal(r) && v < |LaneOf(p, r).phases| && v < |LaneOf(p, r).queue.held|
    requires Ended(p, r, v)
    ensures Ended(FailureWritten(p, w), r, v)
  {
  }

  lemma {:induction false} OfferEnds(hash: string -> nat, p: Pipe, t: TxnNo, to: Status)
    requires AllEnded(p)
    ensures AllEnded(Offer(hash, p, t, to))
  {
    var p1 := Offer(hash, p, t, to);
    forall r, v | !Terminal(r) && 0 <= v < |LaneOf(p1, r).phases| && v < |LaneOf(p1, r).queue.held|
      ensures Ended(p1, r, v)
    {
      assert Ended(p, r, v);
    }
  }

  lemma {:induction false} OfferFits(hash: string -> nat, p: Pipe, stuck: set<TxnNo>, t: TxnNo, to: Status)
    requires PipeOk(p) && Fits(p, stuck) && t in stuck
    ensures Fits(Offer(hash, p, t, to), stuck)
  {
    if !Terminal(to) {
      RefusedOnlyAtLimit(hash, LaneOf(p, to).queue, t, RouteKey(p.sys.db.txns, to, t));
    }
  }

  // ---------- every move of a working worker ----------

  lemma {:induction false} TookEnds(p: Pipe, s: Status, w: nat)
    requires AllEnded(p) && LaneOk(LaneOf(p, s)) && !Terminal(s) && CanTake(LaneOf(p, s).queue, w)
    ensures AllEnded(TakeUp(p, s, w))
  {
    var p1 := TakeUp(p, s, w);
    forall r, v | !Terminal(r) && 0 <= v < |LaneOf(p1, r).phases| && v < |LaneOf(p1, r).queue.held|
      ensures Ended(p1, r, v)
    {
      assert Ended(p, r, v);
    }
  }

  lemma {:induction false} TookWorks(p: Pipe, stuck: set<TxnNo>, s: Status, w: nat)
    requires Working(p, stuck) && DrainMove(p, Took(s, w))
    ensures Working(TakeUp(p, s, w), stuck)
  {
    TakeUpKeepsOk(p, s, w);
    TookEnds(p, s, w);
  }

  lemma {:induction false} DoneEnds(p: Pipe, s: Status, w: nat)
    requires AllEnded(p) && !Terminal(s) && Holds(LaneOf(p, s), w, Finishing)
    ensures AllEnded(PutDown(p, s, w))
  {
    var p1 := PutDown(p, s, w);
    forall r, v | !Terminal(r) && 0 <= v < |LaneOf(p1, r).phases| && v < |LaneOf(p1, r).queue.held|
      ensures Ended(p1, r, v)
    {
      assert Ended(p, r, v);
    }
  }

  lemma {:induction false} DoneWorks(p: Pipe, stuck: set<TxnNo>, s: Status, w: nat)
    requires Working(p, stuck) && DrainMove(p, Done(s, w))
    ensures Working(PutDown(p, s, w), stuck)
  {
    PutDownKeepsOk(p, s, w);
    DoneEnds(p, s, w);
  }

  lemma {:induction false} TriedAllEnds(p: Pipe, s: Status, w: nat, env: Env)
    requires PipeOk(p) && AllEnded(p) && DrainMove(p, Tried(s, w, env))
    ensures AllEnded(TryOut(p, s, w, env))
  {
    var p1 := TryOut(p, s, w, env);
    forall r, v | !Terminal(r) && 0 <= v < |LaneOf(p1, r).phases| && v < |LaneOf(p1, r).queue.held|
      ensures Ended(p1, r, v)
    {
      TriedEnds(p, s, w, env, r, v);
    }
  }

  lemma {:induction false} TriedWorks(p: Pipe, stuck: set<TxnNo>, s: Status, w: nat, env: Env)
    requires Working(p, stuck) && DrainMove(p, Tried(s, w, env))
    ensures Working(TryOut(p, s, w, env), stuck)
  {
    TriedKeepsOk(p, s, w, env);
    TriedFits(p, stuck, s, w, env);
    TriedAllEnds(p, s, w, env);
  }

  lemma {:induction false} TriedFits(p: Pipe, stuck: set<TxnNo>, s: Status, w: nat, env: Env)
    requires PipeOk(p) && Fits(p, stuck) && DrainMove(p, Tried(s, w, env))
    ensures Fits(TryOut(p, s, w, env), stuck)
  {
    var p1 := TryOut(p, s, w, env);
    var t := LaneOf(p, s).queue.held[w].value;
    HeldIsPending(LaneOf(p, s), w);
    forall u | u in p1.sys.db.txns && !Terminal(p1.sys.db.txns[u].status)
      ensures u in stuck
    {
      if u != t {
        TriedOthers(p.sys, t, s, env, u);
      }
    }
  }

  lemma {:induction false} EnqueuedWorks(hash: string -> nat, p: Pipe, stuck: set<TxnNo>, s: Status, w: nat)
    requires Working(p, stuck) && DrainMove(p, Followed(s, w)) && LaneOf(p, s).phases[w].Enqueueing?
    ensures Working(FollowUp(hash, p, s, w), stuck)
  {
    var l := LaneOf(p, s);
    var t, to := l.queue.held[w].value, l.phases[w].to;
    var p1 := WithLane(p, s, InPhase(l, w, Finishing));
    HeldIsPending(l, w);
    AboutToFinish(p, stuck, s, w);
    FollowedKeepsOk(hash, p, s, w);
    OfferEnds(hash, p1, t, to);
    OfferFits(hash, p1, stuck, t, to);
  }

  lemma {:induction false} FailedWorks(hash: string -> nat, p: Pipe, stuck: set<TxnNo>, s: Status, w: nat)
    requires Working(p, stuck) && DrainMove(p, Followed(s, w)) && LaneOf(p, s).phases[w] == Failing
    ensures Working(FollowUp(hash, p, s, w), stuck)
  {
    FollowedKeepsOk(hash, p, s, w);
    FailsFromInit(hash, p, s, w);
    var p1 := FailureWritten(p, w);
    forall r, v | !Terminal(r) && 0 <= v < |LaneOf(p1, r).phases| && v < |LaneOf(p1, r).queue.held|
      ensures Ended(p1, r, v)
    {
      assert Ended(p, r, v);
      FailedEnds(p, w, r, v);
    }
  }

  /** Work goes on, with less left to do. */
  lemma {:induction false} WorkStep(hash: string -> nat, p: Pipe, stuck: set<TxnNo>, m: Move)
    requires Working(p, stuck) && DrainMove(p, m)
    ensures Working(PipeStep(hash, p, m), stuck) && Measure(PipeStep(hash, p, m)) < Measure(p)
  {
    DrainDescends(hash, p, m);
    match m
    case Took(s, w) =>
      TookWorks(p, stuck, s, w);
    case Tried(s, w, env) =>
      TriedWorks(p, stuck, s, w, env);
    case Followed(s, w) =>
      if LaneOf(p, s).phases[w] == Failing {
        FailedWorks(hash, p, stuck, s, w);
      } else {
        EnqueuedWorks(hash, p, stuck, s, w);
      }
    case Done(s, w) =>
      DoneWorks(p, stuck, s, w);
  }

  lemma {:induction false} FollowedCovers(hash: string -> nat, p: Pipe, stuck: set<TxnNo>, s: Status, w: nat, u: TxnNo)
    requires Working(p, stuck) && DrainMove(p, Followed(s, w))
    requires u in p.sys.db.txns && Covered(p, u) && u in FollowUp(hash, p, s, w).sys.db.txns
    ensures Covered(FollowUp(hash, p, s, w), u)
  {
    if LaneOf(p, s).phases[w] == Failing {
      FailsFromInit(hash, p, s, w);
      FailedCovers(p, w, u);
    } else {
      EnqueuedCovers(hash, p, stuck, s, w, u);
    }
  }

  /** A transaction somebody takes care of is not forgotten, and no new work appears. */
  lemma {:induction false} CoveredStays(hash: string -> nat, p: Pipe, stuck: set<TxnNo>, m: Move, u: TxnNo)
    requires Working(p, stuck) && DrainMove(p, m)
    requires u in p.sys.db.txns ==> Covered(p, u)
    requires u in PipeStep(hash, p, m).sys.db.txns
    ensures Covered(PipeStep(hash, p, m), u)
  {
    match m
    case Took(s, w) =>
      TakeCovers(LaneOf(p, s), w, u);
    case Tried(s, w, env) =>
      TriedCovers(p, s, w, env, u);
    case Followed(s, w) =>
      FollowedTxns(hash, p, s, w);
      FollowedCovers(hash, p, stuck, s, w, u);
    case Done(s, w) =>
      FinishCovers(LaneOf(p, s), w, u);
  }

  lemma {:induction false} FollowedTxns(hash: string -> nat, p: Pipe, s: Status, w: nat)
    ensures FollowUp(hash, p, s, w).sys.db.txns.Keys == p.sys.db.txns.Keys
  {
  }

  /** A drain stays a drain, with less left to do. */
  lemma {:induction false} DrainStep(hash: string -> nat, p: Pipe, stuck: set<TxnNo>, m: Move)
    requires Draining(p, stuck) && DrainMove(p, m)
    ensures Draining(PipeStep(hash, p, m), stuck) && Measure(PipeStep(hash, p, m)) < Measure(p)
  {
    WorkStep(hash, p, stuck, m);
    var p1 := PipeStep(hash, p, m);
    forall u | u in p1.sys.db.txns
      ensures Covered(p1, u)
    {
      assert u in p.sys.db.txns ==> Covered(p, u);
      CoveredStays(hash, p, stuck, m, u);
    }
  }

  /** With both queues empty and all workers free, a drain has left nothing open. */
  lemma {:induction false} QuietIsFinished(p: Pipe)
    requires AllCovered(p) && Idle(p.init.queue) && Idle(p.pay.queue)
    ensures forall t | t in p.sys.db.txns :: Terminal(p.sys.db.txns[t].status)
  {
    forall t | t in p.sys.db.txns
      ensures Terminal(p.sys.db.txns[t].status)
    {
      assert Covered(p, t);
    }
  }

  /** A drain stops only when it is over: while an item waits or is held, some worker can move. */
  lemma {:induction false} DrainGoesOn(p: Pipe, env: Env)
    requires PipeOk(p) && !(Idle(p.init.queue) && Idle(p.pay.queue)) && ClockInRange(env.today)
    requires FreshEnv(p.sys.db, env)
    ensures exists m :: DrainMove(p, m)
  {
    var s := if Idle(p.init.queue) then PaySuccess else Init;
    var l := LaneOf(p, s);
    if w: nat :| w < |l.queue.held| && l.queue.held[w].Some? {
      var m := if l.phases[w] == Fresh then Tried(s, w, env)
               else if l.phases[w] == Finishing then Done(s, w)
               else Followed(s, w);
      assert l.phases[w] != Free;
      FreshEnvSuffices(p.sys.db, l.queue.held[w].value, s, env);
      assert DrainMove(p, m);
    } else {
      var w: nat :| w < |l.queue.channels| && l.queue.channels[w] != [];
      assert DrainMove(p, Took(s, w));
    }
  }

  /** What the code allocator and the identifier source supply is new, and every account belongs to
      a registered merchant. */
  ghost predicate FreshEnv(db: Db, env: Env) {
    && env.newAccount.Some? && env.newAccount.value != "" && env.newAccount.value !in db.accounts
    && env.writeoffTxn !in db.txns
    && forall a | a in db.accounts ::
         && db.accounts[a].merchant in db.merchants
         && !TradeTaken(db.txns, db.accounts[a].merchant, WriteoffTradeNo(a, env.writeoffTxn))
  }

  /** Fresh numbers are all it takes: then the debit stage is refused only for a reason that fails
      the transaction, and the credit stage not at all. */
  lemma {:induction false} FreshEnvSuffices(db: Db, t: TxnNo, s: Status, env: Env)
    requires Inv(db) && ClockInRange(env.today) && FreshEnv(db, env) && !Terminal(s)
    ensures var r := Stage(db, t, s, env); r.Rejected? ==> ShouldFail(r.error)
  {
    StageKeepsInv(db, t, s, env);
    if t in db.txns && db.txns[t].status == s == Init {
      FreshStageInit(db, t, env);
    }
  }

  lemma {:induction false} FreshStageInit(db: Db, t: TxnNo, env: Env)
    requires t in db.txns && FreshEnv(db, env)
    ensures StageInit(db, t, env).Err? ==> ShouldFail(StageInit(db, t, env).error)
  {
    if db.txns[t].debit in db.accounts {
      FreshSweep(db, db.txns[t].debit, env);
    }
  }

  lemma {:induction false} FreshSweep(db: Db, a: AccountNo, env: Env)
    requires a in db.accounts && FreshEnv(db, env)
    ensures Sweep(db, a, env).Err? ==> Sweep(db, a, env).error == AccountResolveFailed
  {
  }
}
