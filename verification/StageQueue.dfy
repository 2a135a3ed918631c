/** The deduplicating, sharded queue in front of each stage: per-worker channels, a pending set
    shared by all of them, and a global limit. */
module StageQueues {
  import opened Domain
  import opened Collections

  /** `channels[w]` is what waits for worker `w`, `held[w]` what it is working on. */
  datatype Queue = Queue(channels: seq<seq<TxnNo>>, held: seq<Option<TxnNo>>, pending: set<TxnNo>, size: nat)

  /** The key an item is sharded by: its route key, or else its transaction number. */
  function ShardKey(t: TxnNo, route: string): string {
    if route == "" then t else route
  }

  function WorkerIndex(hash: string -> nat, workers: nat, key: string): (w: nat)
    requires workers > 0
    ensures w < workers
  {
    if key == "" then 0 else hash(key) % workers
  }

  function NewQueue(workerCount: int, size: int): (q: Queue)
    ensures QueueOk(q) && Idle(q) && q.size == (if size <= 0 then 1 else size)
    ensures workerCount > 0 ==> |q.channels| <= workerCount
    ensures |q.channels| == q.size < workerCount || |q.channels| == (if workerCount > 0 then workerCount else 1)
  {
    var positive := if workerCount <= 0 then 1 else workerCount;
    var limit := if size <= 0 then 1 else size;
    var workers := if positive > limit then limit else positive;
    var q := Queue(seq(workers, _ => []), seq(workers, _ => None), {}, limit);
    assert forall t :: !Queued(q, t) && !Held(q, t);
    q
  }

  /** Two keys share a worker exactly when their hashes differ by a multiple of the number of workers. */
  lemma {:induction false} ShareWorker(hash: string -> nat, workers: nat, k: string, j: string)
    requires workers > 0 && k != "" && j != ""
    ensures WorkerIndex(hash, workers, k) == WorkerIndex(hash, workers, j)
            <==> exists m: int :: hash(k) - hash(j) == Times(m, workers)
  {
    var x, y := hash(k), hash(j);
    assert x == x / workers * workers + x % workers && y == y / workers * workers + y % workers;
    if x % workers == y % workers {
      assert x - y == Times(x / workers - y / workers, workers);
    }
    if m: int :| x - y == Times(m, workers) {
      SameRemainder(x, y, m, workers);
    }
  }

  function Times(m: int, n: int): int {
    m * n
  }

  lemma {:induction false} SameRemainder(x: nat, y: nat, m: int, n: nat)
    requires n > 0 && x - y == Times(m, n)
    ensures x % n == y % n
  {
    var k := x / n - y / n - m;
    assert x == x / n * n + x % n && y == y / n * n + y % n;
    assert k * n == y % n - x % n;
    if k != 0 {
      MultipleGap(k, n);
      assert false;
    }
  }

  predicate Accepts(q: Queue, t: TxnNo) {
    t != "" && t !in q.pending && |q.pending| < q.size
  }

  /** EnqueueWithRoute: whether it reports success, and the queue afterwards. */
  function Enqueue(hash: string -> nat, q: Queue, t: TxnNo, route: string): (bool, Queue) {
    if t == "" || |q.channels| == 0 then (false, q)
    else
      var w := WorkerIndex(hash, |q.channels|, ShardKey(t, route));
      if t in q.pending then (true, q)
      else if |q.pending| >= q.size then (false, q)
      else if |q.channels[w]| >= q.size then (false, q)
      else (true, q.(channels := q.channels[w := q.channels[w] + [t]], pending := q.pending + {t}))
  }

  /** A free worker receives the first item of its channel. */
  predicate CanTake(q: Queue, w: nat) {
    w < |q.channels| && w < |q.held| && q.held[w] == None && q.channels[w] != []
  }

  function Take(q: Queue, w: nat): Queue
    requires CanTake(q, w)
  {
    q.(channels := q.channels[w := q.channels[w][1..]], held := q.held[w := Some(q.channels[w][0])])
  }

  predicate CanFinish(q: Queue, w: nat) {
    w < |q.held| && q.held[w].Some?
  }

  /** Done: the item may be enqueued again from now on. */
  function Finish(q: Queue, w: nat): Queue
    requires CanFinish(q, w)
  {
    q.(held := q.held[w := None], pending := q.pending - {q.held[w].value})
  }

  // ---------- the invariant ----------

  predicate Queued(q: Queue, t: TxnNo) {
    exists w | 0 <= w < |q.channels| :: t in q.channels[w]
  }

  predicate Held(q: Queue, t: TxnNo) {
    exists w | 0 <= w < |q.held| :: q.held[w] == Some(t)
  }

  /** Nothing waits and nobody works. */
  ghost predicate Idle(q: Queue) {
    && (forall w | 0 <= w < |q.channels| :: q.channels[w] == [])
    && (forall w | 0 <= w < |q.held| :: q.held[w] == None)
  }

  /** Two places where an item can be: position i of channel w, or in the hands of worker w (i = -1). */
  ghost predicate At(q: Queue, w: int, i: int, t: TxnNo) {
    || (0 <= w < |q.channels| && 0 <= i < |q.channels[w]| && q.channels[w][i] == t)
    || (0 <= w < |q.held| && i == -1 && q.held[w] == Some(t))
  }

  ghost predicate Single(q: Queue, t: TxnNo) {
    forall w, i, v, j | At(q, w, i, t) && At(q, v, j, t) :: w == v && i == j
  }

  /** Every pending item is in exactly one place, nothing else is anywhere, and there are never
      more than the limit. */
  ghost predicate QueueOk(q: Queue) {
    && 0 < |q.channels| == |q.held| && |q.pending| <= q.size
    && (forall t: TxnNo {:trigger Single(q, t)} :: Single(q, t))
    && (forall t: TxnNo {:trigger t in q.pending} :: t in q.pending <==> Queued(q, t) || Held(q, t))
    && "" !in q.pending
  }

  lemma {:induction false} DistinctFits<T>(s: seq<T>, x: set<T>)
    requires forall i, j | 0 <= i < j < |s| :: s[i] != s[j]
    requires forall i | 0 <= i < |s| :: s[i] in x
    ensures |s| <= |x|
  {
    if s == [] {
    } else {
      var n := |s| - 1;
      DistinctFits(s[..n], x - {s[n]});
    }
  }

  /** A channel never holds more than the pending set, so it is never full while that has room. */
  lemma {:induction false} ChannelFits(q: Queue, w: nat)
    requires QueueOk(q) && w < |q.channels|
    ensures |q.channels[w]| <= |q.pending|
  {
    var c := q.channels[w];
    forall i, j | 0 <= i < j < |c|
      ensures c[i] != c[j]
    {
      assert Single(q, c[i]) && At(q, w, i, c[i]) && At(q, w, j, c[j]);
    }
    forall i | 0 <= i < |c|
      ensures c[i] in q.pending
    {
      assert Queued(q, c[i]);
    }
    DistinctFits(c, q.pending);
  }

  /** A transaction is refused only when the queue is at its global limit: the branch for a full
      channel cannot be taken. */
  lemma {:induction false} RefusedOnlyAtLimit(hash: string -> nat, q: Queue, t: TxnNo, route: string)
    requires QueueOk(q)
    ensures Enqueue(hash, q, t, route).0 <==> t != "" && (t in q.pending || |q.pending| < q.size)
    ensures var w := WorkerIndex(hash, |q.channels|, ShardKey(t, route));
            var accepted := q.(channels := q.channels[w := q.channels[w] + [t]], pending := q.pending + {t});
            Enqueue(hash, q, t, route).1 == if Accepts(q, t) then accepted else q
  {
    ChannelFits(q, WorkerIndex(hash, |q.channels|, ShardKey(t, route)));
  }

  lemma {:induction false} EnqueueKeepsOk(hash: string -> nat, q: Queue, t: TxnNo, route: string)
    requires QueueOk(q)
    ensures QueueOk(Enqueue(hash, q, t, route).1)
  {
    RefusedOnlyAtLimit(hash, q, t, route);
    if Accepts(q, t) {
      var w := WorkerIndex(hash, |q.channels|, ShardKey(t, route));
      AppendKeepsOk(q, w, t);
    }
  }

  lemma {:induction false} AppendKeepsOk(q: Queue, w: nat, t: TxnNo)
    requires QueueOk(q) && w < |q.channels| && Accepts(q, t)
    ensures QueueOk(q.(channels := q.channels[w := q.channels[w] + [t]], pending := q.pending + {t}))
  {
    var q1 := q.(channels := q.channels[w := q.channels[w] + [t]], pending := q.pending + {t});
    var n := |q.channels[w]|;
    forall u: TxnNo
      ensures Single(q1, u)
    {
      assert Single(q, u);
      assert forall v, i {:trigger At(q1, v, i, u)} | At(q1, v, i, u) :: At(q, v, i, u) || (u == t && v == w && i == n);
      if u == t {
        assert !Queued(q, t) && !Held(q, t);
        assert forall v, i :: !At(q, v, i, t);
      }
    }
    forall u: TxnNo
      ensures u in q1.pending <==> Queued(q1, u) || Held(q1, u)
    {
      assert u in q.pending <==> Queued(q, u) || Held(q, u);
      assert q1.channels[w][n] == t;
      if Queued(q, u) {
        var v :| 0 <= v < |q.channels| && u in q.channels[v];
        assert u in q1.channels[v];
      }
      if Queued(q1, u) && u != t {
        var v :| 0 <= v < |q1.channels| && u in q1.channels[v];
        assert u in q.channels[v];
      }
    }
  }

  lemma {:induction false} TakeKeepsOk(q: Queue, w: nat)
    requires QueueOk(q) && CanTake(q, w)
    ensures QueueOk(Take(q, w))
  {
    var q1, t := Take(q, w), q.channels[w][0];
    forall u: TxnNo
      ensures Single(q1, u)
    {
      assert Single(q, u);
      assert forall v, i {:trigger At(q1, v, i, u)} | At(q1, v, i, u) :: At(q, v, if v == w then i + 1 else i, u);
    }
    forall u: TxnNo
      ensures u in q1.pending <==> Queued(q1, u) || Held(q1, u)
    {
      assert u in q.pending <==> Queued(q, u) || Held(q, u);
      if Queued(q, u) {
        var v :| 0 <= v < |q.channels| && u in q.channels[v];
        assert u in q1.channels[v] || (v == w && u == t && q1.held[w] == Some(t));
      }
      if Held(q, u) {
        var v :| 0 <= v < |q.held| && q.held[v] == Some(u);
        assert q1.held[v] == Some(u);
      }
      if Queued(q1, u) {
        var v :| 0 <= v < |q1.channels| && u in q1.channels[v];
        assert u in q.channels[v];
      }
      if Held(q1, u) {
        var v :| 0 <= v < |q1.held| && q1.held[v] == Some(u);
        assert q.held[v] == Some(u) || (v == w && u == t && t in q.channels[w]);
      }
    }
  }

  lemma {:induction false} FinishKeepsOk(q: Queue, w: nat)
    requires QueueOk(q) && CanFinish(q, w)
    ensures QueueOk(Finish(q, w))
  {
    var q1, t := Finish(q, w), q.held[w].value;
    forall u: TxnNo
      ensures Single(q1, u)
    {
      assert Single(q, u);
      assert forall v, i {:trigger At(q1, v, i, u)} | At(q1, v, i, u) :: At(q, v, i, u);
    }
    forall u: TxnNo
      ensures u in q1.pending <==> Queued(q1, u) || Held(q1, u)
    {
      assert u in q.pending <==> Queued(q, u) || Held(q, u);
      assert At(q, w, -1, t) && Single(q, t);
      if Held(q, u) && u != t {
        var v :| 0 <= v < |q.held| && q.held[v] == Some(u);
        assert q1.held[v] == Some(u);
      }
      if Held(q1, u) {
        var v :| 0 <= v < |q1.held| && q1.held[v] == Some(u);
        assert q.held[v] == Some(u) && At(q, v, -1, u);
      }
      if Queued(q, t) {
        var v :| 0 <= v < |q.channels| && t in q.channels[v];
        var i :| 0 <= i < |q.channels[v]| && q.channels[v][i] == t;
        assert At(q, v, i, t);
      }
    }
  }

  // ---------- every interleaving ----------

  datatype QueueEvent = Enqueued(txn: TxnNo, route: string) | Taken(worker: nat) | Finished(worker: nat)

  function QueueStep(hash: string -> nat, q: Queue, e: QueueEvent): Queue {
    match e
    case Enqueued(t, route) => Enqueue(hash, q, t, route).1
    case Taken(w) => if CanTake(q, w) then Take(q, w) else q
    case Finished(w) => if CanFinish(q, w) then Finish(q, w) else q
  }

  lemma {:induction false} QueueStepKeepsOk(hash: string -> nat, q: Queue, e: QueueEvent)
    requires QueueOk(q)
    ensures QueueOk(QueueStep(hash, q, e)) && |QueueStep(hash, q, e).channels| == |q.channels|
  {
    match e
    case Enqueued(t, route) =>
      EnqueueKeepsOk(hash, q, t, route);
    case Taken(w) =>
      if CanTake(q, w) {
        TakeKeepsOk(q, w);
      }
    case Finished(w) =>
      if CanFinish(q, w) {
        FinishKeepsOk(q, w);
      }
  }

  ghost function QueueRun(hash: string -> nat, workers: int, size: int, run: seq<QueueEvent>): (q: Queue)
    ensures QueueOk(q) && |q.channels| == |NewQueue(workers, size).channels|
  {
    if run == [] then NewQueue(workers, size)
    else
      var q := QueueRun(hash, workers, size, run[..|run| - 1]);
      QueueStepKeepsOk(hash, q, run[|run| - 1]);
      QueueStep(hash, q, run[|run| - 1])
  }

  /** An accepted item and the key it was sharded by. */
  datatype Item = Item(key: string, txn: TxnNo)

  function Numbers(items: seq<Item>): (r: seq<TxnNo>)
    ensures |r| == |items|
  {
    seq(|items|, i requires 0 <= i < |items| => items[i].txn)
  }

  /** What event `e` adds to the channel of worker `w`. */
  function GivenTo(hash: string -> nat, q: Queue, e: QueueEvent, w: nat): seq<Item>
    requires |q.channels| > 0
  {
    if e.Enqueued? && Accepts(q, e.txn) && WorkerIndex(hash, |q.channels|, ShardKey(e.txn, e.route)) == w
    then [Item(ShardKey(e.txn, e.route), e.txn)]
    else []
  }

  /** What worker `w` takes at event `e`. */
  function TakenAt(q: Queue, e: QueueEvent, w: nat): seq<TxnNo> {
    if e == Taken(w) && CanTake(q, w) then [q.channels[w][0]] else []
  }

  lemma {:induction false} ChannelAfterEnqueue(hash: string -> nat, q: Queue, t: TxnNo, route: string, w: nat)
    requires QueueOk(q) && w < |q.channels|
    ensures var q1, given := Enqueue(hash, q, t, route).1, GivenTo(hash, q, Enqueued(t, route), w);
            |q1.channels| == |q.channels| && q1.channels[w] == q.channels[w] + Numbers(given)
  {
    RefusedOnlyAtLimit(hash, q, t, route);
    var given := GivenTo(hash, q, Enqueued(t, route), w);
    assert Numbers(given) == if given == [] then [] else [t];
  }

  lemma {:induction false} ChannelAfterTake(q: Queue, v: nat, w: nat)
    requires QueueOk(q) && w < |q.channels|
    ensures var q1 := if CanTake(q, v) then Take(q, v) else q;
            |q1.channels| == |q.channels| && TakenAt(q, Taken(v), w) + q1.channels[w] == q.channels[w]
  {
  }

  lemma {:induction false} ChannelStep(hash: string -> nat, q: Queue, e: QueueEvent, w: nat)
    requires QueueOk(q) && w < |q.channels|
    ensures |QueueStep(hash, q, e).channels| == |q.channels|
    ensures TakenAt(q, e, w) + QueueStep(hash, q, e).channels[w] == q.channels[w] + Numbers(GivenTo(hash, q, e, w))
  {
    match e
    case Enqueued(t, route) =>
      ChannelAfterEnqueue(hash, q, t, route, w);
    case Taken(v) =>
      ChannelAfterTake(q, v, w);
    case Finished(_) =>
  }

  /** The items accepted for worker `w` over a run, in order. */
  ghost function AcceptedFor(hash: string -> nat, workers: int, size: int, run: seq<QueueEvent>, w: nat): seq<Item> {
    if run == [] then []
    else
      var n := |run| - 1;
      AcceptedFor(hash, workers, size, run[..n], w) + GivenTo(hash, QueueRun(hash, workers, size, run[..n]), run[n], w)
  }

  /** The items worker `w` took over a run, in order. */
  ghost function TakenBy(hash: string -> nat, workers: int, size: int, run: seq<QueueEvent>, w: nat): seq<TxnNo> {
    if run == [] then []
    else
      var n := |run| - 1;
      TakenBy(hash, workers, size, run[..n], w) + TakenAt(QueueRun(hash, workers, size, run[..n]), run[n], w)
  }

  lemma {:induction false} Reorder<T>(accepted: seq<T>, given: seq<T>, taken: seq<T>, now: seq<T>, before: seq<T>,
                                      after: seq<T>)
    requires accepted == taken + before && now + after == before + given
    ensures accepted + given == (taken + now) + after
  {
    assert taken + before + given == taken + (before + given);
  }

  /** Items with the same key go to one worker, and a worker takes its items in the order they
      were accepted: what it took and what waits for it are all it was ever given. */
  lemma {:induction false} FirstInFirstOut(hash: string -> nat, workers: int, size: int, run: seq<QueueEvent>, w: nat)
    requires w < |NewQueue(workers, size).channels|
    ensures Numbers(AcceptedFor(hash, workers, size, run, w))
         == TakenBy(hash, workers, size, run, w) + QueueRun(hash, workers, size, run).channels[w]
    ensures forall i | i in AcceptedFor(hash, workers, size, run, w) ::
      WorkerIndex(hash, |NewQueue(workers, size).channels|, i.key) == w
  {
    if run == [] {
    } else {
      var n := |run| - 1;
      var q, e := QueueRun(hash, workers, size, run[..n]), run[n];
      FirstInFirstOut(hash, workers, size, run[..n], w);
      ChannelStep(hash, q, e, w);
      var accepted, given := AcceptedFor(hash, workers, size, run[..n], w), GivenTo(hash, q, e, w);
      Reorder(Numbers(accepted), Numbers(given), TakenBy(hash, workers, size, run[..n], w),
              TakenAt(q, e, w), q.channels[w], QueueStep(hash, q, e).channels[w]);
      assert Numbers(accepted + given) == Numbers(accepted) + Numbers(given);
    }
  }

  // ---------- the order of some of the items ----------

  /** The items satisfying `on` that the queue accepts at event `e`, whichever their worker. */
  function AcceptedAt(q: Queue, e: QueueEvent, on: TxnNo -> bool): seq<TxnNo> {
    if e.Enqueued? && Accepts(q, e.txn) && on(e.txn) then [e.txn] else []
  }

  /** The items satisfying `on` that any worker takes at event `e`. */
  function ReceivedAt(q: Queue, e: QueueEvent, on: TxnNo -> bool): seq<TxnNo> {
    if e.Taken? && CanTake(q, e.worker) && on(q.channels[e.worker][0]) then [q.channels[e.worker][0]] else []
  }

  ghost function Accepted(hash: string -> nat, workers: int, size: int, run: seq<QueueEvent>,
                          on: TxnNo -> bool): seq<TxnNo> {
    if run == [] then []
    else
      var n := |run| - 1;
      Accepted(hash, workers, size, run[..n], on) + AcceptedAt(QueueRun(hash, workers, size, run[..n]), run[n], on)
  }

  ghost function Received(hash: string -> nat, workers: int, size: int, run: seq<QueueEvent>,
                          on: TxnNo -> bool): seq<TxnNo> {
    if run == [] then []
    else
      var n := |run| - 1;
      Received(hash, workers, size, run[..n], on) + ReceivedAt(QueueRun(hash, workers, size, run[..n]), run[n], on)
  }

  /** An item satisfying `on` is always sent to worker `w` of `n`. */
  ghost predicate SentTo(hash: string -> nat, n: nat, e: QueueEvent, on: TxnNo -> bool, w: nat)
    requires n > 0
  {
    e.Enqueued? && on(e.txn) ==> WorkerIndex(hash, n, ShardKey(e.txn, e.route)) == w
  }

  /** Only the channel of worker `w` holds items satisfying `on`. */
  ghost predicate OnlyAt(q: Queue, on: TxnNo -> bool, w: nat) {
    forall v | 0 <= v < |q.channels| && v != w :: forall t | t in q.channels[v] :: !on(t)
  }

  lemma {:induction false} EnqueuedInOrder(hash: string -> nat, q: Queue, t: TxnNo, route: string, on: TxnNo -> bool,
                                           w: nat)
    requires QueueOk(q) && w < |q.channels| && OnlyAt(q, on, w)
    requires SentTo(hash, |q.channels|, Enqueued(t, route), on, w)
    ensures var q1 := Enqueue(hash, q, t, route).1;
            && |q1.channels| == |q.channels| && OnlyAt(q1, on, w)
            && Filter(on, q1.channels[w]) == Filter(on, q.channels[w]) + AcceptedAt(q, Enqueued(t, route), on)
  {
    RefusedOnlyAtLimit(hash, q, t, route);
    FilterConcat(on, q.channels[w], [t]);
  }

  lemma {:induction false} TakenInOrder(q: Queue, v: nat, on: TxnNo -> bool, w: nat)
    requires CanTake(q, v) && w < |q.channels| && OnlyAt(q, on, w)
    ensures var q1 := Take(q, v);
            && OnlyAt(q1, on, w)
            && ReceivedAt(q, Taken(v), on) + Filter(on, q1.channels[w]) == Filter(on, q.channels[w])
  {
    assert q.channels[v][0] in q.channels[v];
  }

  lemma {:induction false} OrderStep(hash: string -> nat, q: Queue, e: QueueEvent, on: TxnNo -> bool, w: nat)
    requires QueueOk(q) && w < |q.channels| && OnlyAt(q, on, w) && SentTo(hash, |q.channels|, e, on, w)
    ensures var q1 := QueueStep(hash, q, e);
            && |q1.channels| == |q.channels| && OnlyAt(q1, on, w)
            && ReceivedAt(q, e, on) + Filter(on, q1.channels[w]) == Filter(on, q.channels[w]) + AcceptedAt(q, e, on)
  {
    match e
    case Enqueued(t, route) =>
      EnqueuedInOrder(hash, q, t, route, on, w);
    case Taken(v) =>
      if CanTake(q, v) {
        TakenInOrder(q, v, on, w);
      }
    case Finished(_) =>
  }

  /** Items that are always sent to one worker are received in the order they were accepted, and
      what was not received waits with that worker. */
  lemma {:induction false} ReceivedInOrder(hash: string -> nat, workers: int, size: int, run: seq<QueueEvent>,
                                           on: TxnNo -> bool, w: nat)
    requires w < |NewQueue(workers, size).channels|
    requires forall e | e in run :: SentTo(hash, |NewQueue(workers, size).channels|, e, on, w)
    ensures var q := QueueRun(hash, workers, size, run);
            && OnlyAt(q, on, w)
            && Accepted(hash, workers, size, run, on)
               == Received(hash, workers, size, run, on) + Filter(on, q.channels[w])
  {
    if run == [] {
    } else {
      var n := |run| - 1;
      var q, e := QueueRun(hash, workers, size, run[..n]), run[n];
      ReceivedInOrder(hash, workers, size, run[..n], on, w);
      assert e in run;
      OrderStep(hash, q, e, on, w);
      Reorder(Accepted(hash, workers, size, run[..n], on), AcceptedAt(q, e, on),
              Received(hash, workers, size, run[..n], on), ReceivedAt(q, e, on),
              Filter(on, q.channels[w]), Filter(on, QueueStep(hash, q, e).channels[w]));
    }
  }

  // ---------- stageQueue ----------

  class StageQueue {
    var workerQueues: seq<seq<TxnNo>>
    var maxPending: nat
    var pending: set<TxnNo>
    /** What each worker is working on between receiving an item and calling Done for it. */
    ghost var held: seq<Option<TxnNo>>
    const hash: string -> nat

    ghost function Contents(): Queue
      reads this
    {
      Queue(workerQueues, held, pending, maxPending)
    }

    ghost predicate Valid()
      reads this
    {
      QueueOk(Contents())
    }

    constructor (workerCount: int, size: int, hasher: string -> nat)
      ensures Valid() && hash == hasher && Contents() == NewQueue(workerCount, size)
    {
      var positive := if workerCount <= 0 then 1 else workerCount;
      var limit := if size <= 0 then 1 else size;
      var workers := if positive > limit then limit else positive;
      workerQueues := seq(workers, _ => []);
      held := seq(workers, _ => None);
      pending := {};
      maxPending := limit;
      hash := hasher;
      new;
      assert Contents() == NewQueue(workerCount, size);
    }

    /** Reports success for an item that is already pending; refuses only an empty number and a
        queue at its limit. */
    method EnqueueWithRoute(t: TxnNo, routeKey: string) returns (ok: bool)
      requires Valid()
      modifies this
      ensures Valid() && (ok, Contents()) == Enqueue(hash, old(Contents()), t, routeKey)
      ensures ok <==> t != "" && (t in old(pending) || |old(pending)| < old(maxPending))
      ensures ok ==> t in pending
    {
      RefusedOnlyAtLimit(hash, Contents(), t, routeKey);
      EnqueueKeepsOk(hash, Contents(), t, routeKey);
      if t == "" {
        return false;
      }
      var w := WorkerIndex(hash, |workerQueues|, ShardKey(t, routeKey));
      if t in pending {
        return true;
      }
      if maxPending > 0 && |pending| >= maxPending {
        return false;
      }
      if |workerQueues[w]| < maxPending {
        workerQueues := workerQueues[w := workerQueues[w] + [t]];
        pending := pending + {t};
        return true;
      }
      return false;
    }

    /** A worker's receive. */
    method Receive(w: nat) returns (t: TxnNo)
      requires Valid() && CanTake(Contents(), w)
      modifies this
      ensures Valid() && Contents() == Take(old(Contents()), w) && t == old(workerQueues)[w][0]
      ensures t in pending
    {
      TakeKeepsOk(Contents(), w);
      t := workerQueues[w][0];
      assert Queued(Contents(), t);
      workerQueues := workerQueues[w := workerQueues[w][1..]];
      held := held[w := Some(t)];
    }

    method Done(w: nat, t: TxnNo)
      requires Valid() && CanFinish(Contents(), w) && held[w] == Some(t)
      modifies this
      ensures Valid() && Contents() == Finish(old(Contents()), w)
      ensures t !in pending
    {
      FinishKeepsOk(Contents(), w);
      pending := pending - {t};
      held := held[w := None];
    }

    /** How many items wait in all channels. */
    method Depth() returns (total: nat)
      ensures total == SumBy((c: seq<TxnNo>) => |c|, workerQueues)
    {
      total := 0;
      var i := 0;
      while i < |workerQueues|
        invariant 0 <= i <= |workerQueues| && total == SumBy((c: seq<TxnNo>) => |c|, workerQueues[..i])
      {
        assert workerQueues[..i + 1] == workerQueues[..i] + [workerQueues[i]];
        SumSnoc((c: seq<TxnNo>) => |c|, workerQueues[..i], workerQueues[i]);
        total := total + |workerQueues[i]|;
        i := i + 1;
      }
      assert workerQueues[..i] == workerQueues;
    }
  }
}
