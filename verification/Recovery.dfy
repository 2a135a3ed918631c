/** Crash recovery: a pass of the recovery worker, interleaved in any way with the workers it feeds,
    and the draining after it take every stuck transaction to a terminal status. */
module Recovery {
  import opened Domain
  import opened Collections
  import opened Ledger
  import opened Runs
  import opened StageQueues
  import opened Pipeline
  import opened Drains

  // ---------- the pass ----------

  function HasStatus(txns: map<TxnNo, Txn>, status: Status): TxnNo -> bool {
    (t: TxnNo) => t in txns && txns[t].status == status
  }

  /** The page the database returns: at most `limit` numbers with this status, in table order. */
  function Page(txns: map<TxnNo, Txn>, order: seq<TxnNo>, status: Status, limit: nat): (r: seq<TxnNo>)
    ensures |r| <= limit
  {
    var listed := Filter(HasStatus(txns, status), order);
    if |listed| > limit then listed[..limit] else listed
  }

  function PageLimit(batch: int): nat {
    if batch <= 0 then 100 else if batch > 1000 then 1000 else batch
  }

  function OfferAll(hash: string -> nat, p: Pipe, list: seq<TxnNo>, status: Status): Pipe
    decreases |list|
  {
    if list == [] then p else OfferAll(hash, Offer(hash, p, list[0], status), list[1..], status)
  }

  /** What a pass does when no worker moves before it is over. */
  function Recovered(hash: string -> nat, p: Pipe, order: seq<TxnNo>, batch: int): Pipe {
    var p1 := OfferAll(hash, p, Page(p.sys.db.txns, order, Init, PageLimit(batch)), Init);
    OfferAll(hash, p1, Page(p1.sys.db.txns, order, PaySuccess, PageLimit(batch)), PaySuccess)
  }

  method OfferEach(hash: string -> nat, p: Pipe, list: seq<TxnNo>, status: Status) returns (q: Pipe)
    ensures q == OfferAll(hash, p, list, status)
  {
    q := p;
    var i := 0;
    while i < |list|
      invariant 0 <= i <= |list| && OfferAll(hash, q, list[i..], status) == OfferAll(hash, p, list, status)
    {
      assert list[i..][1..] == list[i + 1..];
      q := Offer(hash, q, list[i], status);
      i := i + 1;
    }
  }

  /** RunOnce of the recovery worker: list INIT and offer each, then list PAY_SUCCESS and offer each. */
  method RunOnce(hash: string -> nat, p: Pipe, order: seq<TxnNo>, batch: int) returns (q: Pipe)
    ensures q == Recovered(hash, p, order, batch)
  {
    q := p;
    var statuses := [Init, PaySuccess];
    var k := 0;
    while k < 2
      invariant 0 <= k <= 2
      invariant q == if k == 0 then p
                     else if k == 1 then OfferAll(hash, p, Page(p.sys.db.txns, order, Init, PageLimit(batch)), Init)
                     else Recovered(hash, p, order, batch)
    {
      var list := Page(q.sys.db.txns, order, statuses[k], PageLimit(batch));
      q := OfferEach(hash, q, list, statuses[k]);
      k := k + 1;
    }
  }

  // ---------- the pass among the workers ----------

  /** Where the recovery worker is: before its first listing, offering what it has listed, or done. */
  datatype Scan = Starting | Offering(status: Status, rest: seq<TxnNo>) | Over

  datatype Joint = Joint(pipe: Pipe, scan: Scan)

  /** A worker moves, or the recovery worker lists (in the table order of that moment) or offers. */
  datatype JointMove = Work(move: Move) | Scanned(order: seq<TxnNo>)

  function ScanStep(hash: string -> nat, batch: int, j: Joint, order: seq<TxnNo>): Joint {
    var txns := j.pipe.sys.db.txns;
    match j.scan
    case Starting => j.(scan := Offering(Init, Page(txns, order, Init, PageLimit(batch))))
    case Offering(s, rest) =>
      if rest != [] then Joint(Offer(hash, j.pipe, rest[0], s), Offering(s, rest[1..]))
      else if s == Init then j.(scan := Offering(PaySuccess, Page(txns, order, PaySuccess, PageLimit(batch))))
      else j.(scan := Over)
    case Over => j
  }

  function JointStep(hash: string -> nat, batch: int, j: Joint, m: JointMove): Joint {
    match m
    case Work(move) => j.(pipe := PipeStep(hash, j.pipe, move))
    case Scanned(order) => ScanStep(hash, batch, j, order)
  }

  function JointAfter(hash: string -> nat, batch: int, j: Joint, moves: seq<JointMove>): Joint
    decreases |moves|
  {
    if moves == [] then j else JointAfter(hash, batch, JointStep(hash, batch, j, moves[0]), moves[1..])
  }

  /** The table order names every stuck transaction, and none twice. */
  ghost predicate Complete(order: seq<TxnNo>, stuck: set<TxnNo>) {
    && (forall i, j | 0 <= i < j < |order| :: order[i] != order[j])
    && (forall t | t in stuck :: t in order)
  }

  ghost predicate JointLegal(j: Joint, stuck: set<TxnNo>, m: JointMove) {
    match m
    case Work(move) => DrainMove(j.pipe, move)
    case Scanned(order) => !j.scan.Over? && Complete(order, stuck)
  }

  ghost predicate JointRun(hash: string -> nat, batch: int, j: Joint, stuck: set<TxnNo>, moves: seq<JointMove>)
    decreases |moves|
  {
    moves == [] ||
    (JointLegal(j, stuck, moves[0]) && JointRun(hash, batch, JointStep(hash, batch, j, moves[0]), stuck, moves[1..]))
  }

  /** The pass will still offer a transaction of this status. */
  predicate Promised(scan: Scan, s: Status, t: TxnNo) {
    match scan
    case Starting => true
    case Offering(status, rest) => (status == Init && s == PaySuccess) || (status == s && t in rest)
    case Over => false
  }

  /** Somebody takes care of `t`, or the pass will see to it. */
  ghost predicate LookedAfter(j: Joint, t: TxnNo)
    requires t in j.pipe.sys.db.txns
  {
    Covered(j.pipe, t) || Promised(j.scan, j.pipe.sys.db.txns[t].status, t)
  }

  ghost predicate AllLookedAfter(j: Joint) {
    forall t {:trigger LookedAfter(j, t)} | t in j.pipe.sys.db.txns :: LookedAfter(j, t)
  }

  /** What is listed is stuck, and in the second listing debited. */
  ghost predicate ListOk(txns: map<TxnNo, Txn>, stuck: set<TxnNo>, scan: Scan) {
    scan.Offering? ==>
      && !Terminal(scan.status)
      && forall t | t in scan.rest :: t in stuck && (scan.status == PaySuccess ==> SeenDebited(txns, t))
  }

  ghost predicate Recovering(j: Joint, stuck: set<TxnNo>) {
    && Working(j.pipe, stuck) && AllLookedAfter(j) && ListOk(j.pipe.sys.db.txns, stuck, j.scan)
    && "" !in stuck
  }

  // ---------- worker moves during the pass ----------

  /** How the status of a transaction may change in a move of a working worker. */
  lemma {:induction false} StatusStep(hash: string -> nat, p: Pipe, m: Move, t: TxnNo)
    requires PipeOk(p) && DrainMove(p, m) && t in p.sys.db.txns
    ensures t in PipeStep(hash, p, m).sys.db.txns
    ensures RowStep(p.sys.db.txns, t, PipeStep(hash, p, m).sys.db.txns[t])
  {
    MoveIsEvent(hash, p, m);
    if EventOf(p, m) != [] {
      StepRows(p.sys, EventOf(p, m)[0]);
    }
    assert RowStep(p.sys.db.txns, t, p.sys.db.txns[t]);
  }

  lemma {:induction false} WorkLooksAfter(hash: string -> nat, j: Joint, stuck: set<TxnNo>, m: Move, t: TxnNo)
    requires Working(j.pipe, stuck) && AllLookedAfter(j) && DrainMove(j.pipe, m)
    requires t in PipeStep(hash, j.pipe, m).sys.db.txns
    ensures LookedAfter(j.(pipe := PipeStep(hash, j.pipe, m)), t)
  {
    if t in j.pipe.sys.db.txns {
      assert LookedAfter(j, t);
      StatusStep(hash, j.pipe, m, t);
      if Covered(j.pipe, t) {
        CoveredStays(hash, j.pipe, stuck, m, t);
      }
    } else {
      CoveredStays(hash, j.pipe, stuck, m, t);
    }
  }

  lemma {:induction false} WorkKeepsList(hash: string -> nat, p: Pipe, stuck: set<TxnNo>, scan: Scan, m: Move)
    requires PipeOk(p) && DrainMove(p, m) && ListOk(p.sys.db.txns, stuck, scan)
    ensures ListOk(PipeStep(hash, p, m).sys.db.txns, stuck, scan)
  {
    if scan.Offering? && scan.status == PaySuccess {
      forall t | t in scan.rest
        ensures SeenDebited(PipeStep(hash, p, m).sys.db.txns, t)
      {
        StatusStep(hash, p, m, t);
      }
    }
  }

  lemma {:induction false} WorkRecovers(hash: string -> nat, j: Joint, stuck: set<TxnNo>, m: Move)
    requires Recovering(j, stuck) && DrainMove(j.pipe, m)
    ensures Recovering(j.(pipe := PipeStep(hash, j.pipe, m)), stuck)
    ensures Measure(PipeStep(hash, j.pipe, m)) < Measure(j.pipe)
  {
    WorkStep(hash, j.pipe, stuck, m);
    WorkKeepsList(hash, j.pipe, stuck, j.scan, m);
    var j1 := j.(pipe := PipeStep(hash, j.pipe, m));
    forall t | t in j1.pipe.sys.db.txns
      ensures LookedAfter(j1, t)
    {
      WorkLooksAfter(hash, j, stuck, m, t);
    }
  }

  // ---------- listing ----------

  lemma {:induction false} FilterNoRepeats<T>(p: T -> bool, s: seq<T>)
    requires forall i, j | 0 <= i < j < |s| :: s[i] != s[j]
    ensures var r := Filter(p, s); forall i, j | 0 <= i < j < |r| :: r[i] != r[j]
  {
    if s == [] {
    } else {
      var rest := Filter(p, s[1..]);
      FilterNoRepeats(p, s[1..]);
      forall i | 0 <= i < |rest|
        ensures rest[i] != s[0]
      {
        FilterMember(p, s[1..], rest[i]);
        var k :| 0 <= k < |s[1..]| && s[1..][k] == rest[i];
        assert s[k + 1] == rest[i];
      }
    }
  }

  /** A page long enough for all stuck transactions holds all of the listed status. */
  lemma {:induction false} PageIsComplete(txns: map<TxnNo, Txn>, order: seq<TxnNo>, stuck: set<TxnNo>, status: Status,
                                          limit: nat, t: TxnNo)
    requires Complete(order, stuck) && |stuck| <= limit && !Terminal(status)
    requires forall u | u in txns && !Terminal(txns[u].status) :: u in stuck
    ensures t in Page(txns, order, status, limit) <==> t in txns && txns[t].status == status
  {
    var listed := Filter(HasStatus(txns, status), order);
    FilterNoRepeats(HasStatus(txns, status), order);
    forall i | 0 <= i < |listed|
      ensures listed[i] in stuck
    {
      FilterMember(HasStatus(txns, status), order, listed[i]);
    }
    DistinctFits(listed, stuck);
    FilterMember(HasStatus(txns, status), order, t);
  }

  lemma {:induction false} ListingRecovers(j: Joint, stuck: set<TxnNo>, order: seq<TxnNo>, status: Status, limit: nat)
    requires Recovering(j, stuck) && Complete(order, stuck) && |stuck| <= limit
    requires (j.scan == Starting && status == Init) || (j.scan == Offering(Init, []) && status == PaySuccess)
    ensures Recovering(j.(scan := Offering(status, Page(j.pipe.sys.db.txns, order, status, limit))), stuck)
  {
    var txns := j.pipe.sys.db.txns;
    var j1 := j.(scan := Offering(status, Page(txns, order, status, limit)));
    forall t: TxnNo
      ensures t in j1.scan.rest <==> t in txns && txns[t].status == status
    {
      PageIsComplete(txns, order, stuck, status, limit, t);
    }
    forall t | t in txns
      ensures LookedAfter(j1, t)
    {
      assert LookedAfter(j, t);
    }
  }

  // ---------- offering ----------

  lemma {:induction false} OfferLooksAfter(hash: string -> nat, j: Joint, stuck: set<TxnNo>, u: TxnNo)
    requires Recovering(j, stuck) && j.scan.Offering? && j.scan.rest != [] && u in j.pipe.sys.db.txns
    ensures var t, s := j.scan.rest[0], j.scan.status;
            LookedAfter(Joint(Offer(hash, j.pipe, t, s), Offering(s, j.scan.rest[1..])), u)
  {
    var t, s := j.scan.rest[0], j.scan.status;
    assert LookedAfter(j, u) && t in j.scan.rest;
    if Covered(j.pipe, u) {
      OfferCovers(hash, j.pipe, t, s, u);
    } else if u == t && j.pipe.sys.db.txns[u].status == s {
      if s == Init {
        OfferedInit(hash, j.pipe, stuck, t);
      } else {
        PassedOn(hash, j.pipe, stuck, t);
      }
    }
  }

  lemma {:induction false} OfferWorks(hash: string -> nat, p: Pipe, stuck: set<TxnNo>, t: TxnNo, s: Status)
    requires Working(p, stuck) && t in stuck && !Terminal(s) && (s == PaySuccess ==> SeenDebited(p.sys.db.txns, t))
    ensures Working(Offer(hash, p, t, s), stuck) && Offer(hash, p, t, s).sys == p.sys
    ensures Measure(Offer(hash, p, t, s)) <= Measure(p) + ItemWeight(s)
  {
    OfferKeepsOk(hash, p, t, s);
    OfferEnds(hash, p, t, s);
    OfferFits(hash, p, stuck, t, s);
    EnqueueMeasure(hash, s, LaneOf(p, s), t, RouteKey(p.sys.db.txns, s, t));
  }

  lemma {:induction false} OfferingRecovers(hash: string -> nat, j: Joint, stuck: set<TxnNo>)
    requires Recovering(j, stuck) && j.scan.Offering? && j.scan.rest != []
    ensures var t, s := j.scan.rest[0], j.scan.status;
            && Recovering(Joint(Offer(hash, j.pipe, t, s), Offering(s, j.scan.rest[1..])), stuck)
            && Measure(Offer(hash, j.pipe, t, s)) <= Measure(j.pipe) + ItemWeight(s)
  {
    var t, s := j.scan.rest[0], j.scan.status;
    assert t in j.scan.rest;
    OfferWorks(hash, j.pipe, stuck, t, s);
    var j1 := Joint(Offer(hash, j.pipe, t, s), Offering(s, j.scan.rest[1..]));
    forall u | u in j1.pipe.sys.db.txns
      ensures LookedAfter(j1, u)
    {
      OfferLooksAfter(hash, j, stuck, u);
    }
  }

  lemma {:induction false} LastOfferRecovers(j: Joint, stuck: set<TxnNo>)
    requires Recovering(j, stuck) && j.scan == Offering(PaySuccess, [])
    ensures Recovering(j.(scan := Over), stuck)
  {
    var j1 := j.(scan := Over);
    forall t | t in j1.pipe.sys.db.txns
      ensures LookedAfter(j1, t)
    {
      assert LookedAfter(j, t);
    }
  }

  // ---------- the measure of pass and drain together ----------

  /** What the rest of the pass can still add, one step more for each step it takes. */
  function ScanMeasure(scan: Scan, limit: nat): nat {
    match scan
    case Starting => 3 + 15 * limit
    case Offering(s, rest) => if s == Init then 2 + 10 * |rest| + 5 * limit else 1 + 5 * |rest|
    case Over => 0
  }

  function JointMeasure(j: Joint, batch: int): int {
    Measure(j.pipe) + ScanMeasure(j.scan, PageLimit(batch))
  }

  lemma {:induction false} ScanRecovers(hash: string -> nat, batch: int, j: Joint, stuck: set<TxnNo>, order: seq<TxnNo>)
    requires Recovering(j, stuck) && |stuck| <= PageLimit(batch) && Complete(order, stuck) && !j.scan.Over?
    ensures Recovering(ScanStep(hash, batch, j, order), stuck)
    ensures JointMeasure(ScanStep(hash, batch, j, order), batch) < JointMeasure(j, batch)
  {
    match j.scan
    case Starting =>
      ListingRecovers(j, stuck, order, Init, PageLimit(batch));
    case Offering(s, rest) =>
      if rest != [] {
        OfferingRecovers(hash, j, stuck);
      } else if s == Init {
        ListingRecovers(j, stuck, order, PaySuccess, PageLimit(batch));
      } else {
        LastOfferRecovers(j, stuck);
      }
  }

  lemma {:induction false} JointRecovers(hash: string -> nat, batch: int, j: Joint, stuck: set<TxnNo>,
                                         moves: seq<JointMove>)
    requires Recovering(j, stuck) && |stuck| <= PageLimit(batch) && JointRun(hash, batch, j, stuck, moves)
    ensures Recovering(JointAfter(hash, batch, j, moves), stuck)
    ensures JointMeasure(JointAfter(hash, batch, j, moves), batch) <= JointMeasure(j, batch) - |moves|
    decreases |moves|
  {
    if moves == [] {
    } else {
      match moves[0] {
        case Work(m) =>
          WorkRecovers(hash, j, stuck, m);
        case Scanned(order) =>
          ScanRecovers(hash, batch, j, stuck, order);
      }
      JointRecovers(hash, batch, JointStep(hash, batch, j, moves[0]), stuck, moves[1..]);
    }
  }

  // ---------- the result ----------

  /** The transactions that have not reached a terminal status. */
  ghost function Stuck(txns: map<TxnNo, Txn>): set<TxnNo> {
    set t | t in txns && !Terminal(txns[t].status)
  }

  lemma {:induction false} IdleIsEmpty(q: Queue)
    requires QueueOk(q) && Idle(q)
    ensures q.pending == {}
  {
    forall t: TxnNo
      ensures t !in q.pending
    {
      assert !Queued(q, t) && !Held(q, t);
    }
  }

  lemma {:induction false} IdleMeasure(s: Status, l: Lane)
    requires LaneOk(l) && Idle(l.queue)
    ensures LaneMeasure(s, l) == 0
  {
    SumZero(ChannelWeight(s), l.queue.channels);
    SumZero(PhaseWeight(s), l.phases);
  }

  /** Nothing has begun: idle queues with room for everything that is stuck. */
  ghost predicate AtRest(p: Pipe, batch: int) {
    var stuck := Stuck(p.sys.db.txns);
    && PipeOk(p) && Idle(p.init.queue) && Idle(p.pay.queue)
    && "" !in stuck && |stuck| <= PageLimit(batch) && |stuck| <= p.init.queue.size && |stuck| <= p.pay.queue.size
  }

  lemma {:induction false} RecoveryBegins(p: Pipe, batch: int)
    requires AtRest(p, batch)
    ensures Recovering(Joint(p, Starting), Stuck(p.sys.db.txns))
  {
    IdleIsEmpty(p.init.queue);
    IdleIsEmpty(p.pay.queue);
  }

  /** The pass is over and no worker can move. */
  ghost predicate Stopped(j: Joint) {
    j.scan.Over? && forall m :: !DrainMove(j.pipe, m)
  }

  /** Recovery drains. From idle queues with room for all stuck transactions, however the pass and
      the workers interleave, with listings that name them, free guards and no infrastructure errors:
      there is a bound on the number of moves, and where no move is left, with fresh numbers to draw
      on, every transaction is terminal. */
  lemma {:induction false} RecoveryDrains(hash: string -> nat, p: Pipe, batch: int, moves: seq<JointMove>, env: Env)
    requires AtRest(p, batch) && JointRun(hash, batch, Joint(p, Starting), Stuck(p.sys.db.txns), moves)
    requires ClockInRange(env.today)
    ensures |moves| <= 3 + 15 * PageLimit(batch)
    ensures var end := JointAfter(hash, batch, Joint(p, Starting), moves);
            Stopped(end) && FreshEnv(end.pipe.sys.db, env) ==>
              forall t | t in end.pipe.sys.db.txns :: Terminal(end.pipe.sys.db.txns[t].status)
  {
    var stuck := Stuck(p.sys.db.txns);
    RecoveryBegins(p, batch);
    IdleMeasure(Init, p.init);
    IdleMeasure(PaySuccess, p.pay);
    JointRecovers(hash, batch, Joint(p, Starting), stuck, moves);
    var end := JointAfter(hash, batch, Joint(p, Starting), moves);
    MeasureNonNegative(end.pipe);
    if Stopped(end) && FreshEnv(end.pipe.sys.db, env) {
      StoppedIsFinished(end, stuck, env);
    }
  }

  lemma {:induction false} StoppedIsFinished(j: Joint, stuck: set<TxnNo>, env: Env)
    requires Recovering(j, stuck) && Stopped(j) && FreshEnv(j.pipe.sys.db, env) && ClockInRange(env.today)
    ensures forall t | t in j.pipe.sys.db.txns :: Terminal(j.pipe.sys.db.txns[t].status)
  {
    forall t | t in j.pipe.sys.db.txns
      ensures Covered(j.pipe, t)
    {
      assert LookedAfter(j, t);
    }
    if !(Idle(j.pipe.init.queue) && Idle(j.pipe.pay.queue)) {
      DrainGoesOn(j.pipe, env);
    }
    QuietIsFinished(j.pipe);
  }

  // ---------- a pass that nothing interrupts ----------

  function Scans(order: seq<TxnNo>, n: nat): seq<JointMove> {
    seq(n, _ => Scanned(order))
  }

  lemma {:induction false} ScansNext(hash: string -> nat, batch: int, j: Joint, order: seq<TxnNo>, n: nat)
    requires n > 0
    ensures JointAfter(hash, batch, j, Scans(order, n))
         == JointAfter(hash, batch, ScanStep(hash, batch, j, order), Scans(order, n - 1))
  {
    assert Scans(order, n)[1..] == Scans(order, n - 1);
  }

  lemma {:induction false} OffersInARow(hash: string -> nat, batch: int, p: Pipe, s: Status, list: seq<TxnNo>,
                                        order: seq<TxnNo>, more: nat)
    ensures JointAfter(hash, batch, Joint(p, Offering(s, list)), Scans(order, |list| + more))
         == JointAfter(hash, batch, Joint(OfferAll(hash, p, list, s), Offering(s, [])), Scans(order, more))
    decreases |list|
  {
    if list == [] {
    } else {
      ScansNext(hash, batch, Joint(p, Offering(s, list)), order, |list| + more);
      OffersInARow(hash, batch, Offer(hash, p, list[0], s), s, list[1..], order, more);
    }
  }

  /** A listing and all its offers. */
  lemma {:induction false} ListedInARow(hash: string -> nat, batch: int, p: Pipe, from: Scan, s: Status,
                                        order: seq<TxnNo>, more: nat)
    requires (from == Starting && s == Init) || (from == Offering(Init, []) && s == PaySuccess)
    ensures var list := Page(p.sys.db.txns, order, s, PageLimit(batch));
            JointAfter(hash, batch, Joint(p, from), Scans(order, 1 + |list| + more))
              == JointAfter(hash, batch, Joint(OfferAll(hash, p, list, s), Offering(s, [])), Scans(order, more))
  {
    var list := Page(p.sys.db.txns, order, s, PageLimit(batch));
    ScansNext(hash, batch, Joint(p, from), order, 1 + |list| + more);
    OffersInARow(hash, batch, p, s, list, order, more);
  }

  lemma {:induction false} LastScan(hash: string -> nat, batch: int, p: Pipe, order: seq<TxnNo>)
    ensures JointAfter(hash, batch, Joint(p, Offering(PaySuccess, [])), Scans(order, 1)) == Joint(p, Over)
  {
    ScansNext(hash, batch, Joint(p, Offering(PaySuccess, [])), order, 1);
    assert Scans(order, 0) == [];
  }

  /** The loop of RunOnce is the interleaving in which no worker moves during the pass. */
  lemma {:induction false} UndisturbedPass(hash: string -> nat, p: Pipe, order: seq<TxnNo>, batch: int)
    ensures exists n: nat {:trigger Scans(order, n)} ::
      JointAfter(hash, batch, Joint(p, Starting), Scans(order, n)) == Joint(Recovered(hash, p, order, batch), Over)
  {
    var first := Page(p.sys.db.txns, order, Init, PageLimit(batch));
    var p1 := OfferAll(hash, p, first, Init);
    var second := Page(p1.sys.db.txns, order, PaySuccess, PageLimit(batch));
    ListedInARow(hash, batch, p, Starting, Init, order, 1 + |second| + 1);
    ListedInARow(hash, batch, p1, Offering(Init, []), PaySuccess, order, 1);
    LastScan(hash, batch, OfferAll(hash, p1, second, PaySuccess), order);
  }

  /** What a pass lists of one status: as many as the batch asks for if there are so many, with 100 for
      a batch that is not positive and never more than 1000. */
  lemma {:induction false} PageHolds(txns: map<TxnNo, Txn>, order: seq<TxnNo>, s: Status, batch: int)
    ensures var page, all := Page(txns, order, s, PageLimit(batch)), Filter(HasStatus(txns, s), order);
            && page == all[..|page|]
            && (0 < batch <= 1000 ==> |page| == if |all| < batch then |all| else batch)
            && (batch <= 0 ==> |page| == if |all| < 100 then |all| else 100)
            && (batch > 1000 ==> |page| == if |all| < 1000 then |all| else 1000)
            && (forall t | t in page :: t in order && t in txns && txns[t].status == s)
  {
    var page, all := Page(txns, order, s, PageLimit(batch)), Filter(HasStatus(txns, s), order);
    forall t | t in page
      ensures t in order && t in txns && txns[t].status == s
    {
      assert t in all;
      FilterMember(HasStatus(txns, s), order, t);
    }
  }
}
