/** The Hi-Lo code allocator: providers lease ranges of sequence values from a shared store, draw
    from them locally, and renew them ahead of time, one renewal per bucket at once. */
module HiLo {
  import opened Domain
  import opened Codes

  datatype Segment = Segment(next: nat, end: int, valid: bool)

  predicate HasNext(s: Segment) {
    s.valid && s.next <= s.end
  }

  function AfterTake(s: Segment): Segment {
    Segment(s.next + 1, s.end, s.valid && s.next + 1 <= s.end)
  }

  function Remaining(s: Segment): nat {
    if HasNext(s) then s.end - s.next + 1 else 0
  }

  /** A renewal under way: asked for, answered by the store with a range, or refused. `sync` tells
      a caller waiting for it from one in the background. */
  datatype Job = NoJob | Asked(sync: bool) | Granted(sync: bool, segment: Segment) | Refused(sync: bool)

  datatype Bucket = Bucket(current: Segment, prefetch: Option<Segment>, job: Job)

  const EMPTY_BUCKET := Bucket(Segment(0, 0, false), None, NoJob)

  /** What one pass through the lock of nextSeq ends in. */
  datatype Answer = Took(number: nat) | Retry | Wait | Lease

  predicate Prefetched(b: Bucket) {
    b.prefetch.Some? && HasNext(b.prefetch.value)
  }

  function NextPass(b: Bucket, lowWatermark: int): (Answer, Bucket) {
    if HasNext(b.current) then
      var rest := AfterTake(b.current);
      var renew := Remaining(rest) <= lowWatermark && b.prefetch == None && b.job == NoJob;
      (Took(b.current.next), b.(current := rest, job := if renew then Asked(false) else b.job))
    else if Prefetched(b) then (Retry, b.(current := b.prefetch.value, prefetch := None))
    else if b.job != NoJob then (Wait, b)
    else (Lease, b.(job := Asked(true)))
  }

  /** The renewal's result is put in place. */
  function LeaseApplied(b: Bucket): Bucket {
    match b.job
    case Granted(sync, s) => if sync then b.(current := s, job := NoJob) else b.(prefetch := Some(s), job := NoJob)
    case Refused(_) => b.(job := NoJob)
    case _ => b
  }

  // ---------- one bucket ----------

  predicate Within(s: Segment, n: int) {
    s.valid && s.next <= n <= s.end
  }

  function Values(s: Segment): set<int> {
    set n | s.next <= n <= s.end && Within(s, n)
  }

  function PrefetchValues(b: Bucket): set<int> {
    if b.prefetch.Some? then Values(b.prefetch.value) else {}
  }

  function JobValues(b: Bucket): set<int> {
    if b.job.Granted? then Values(b.job.segment) else {}
  }

  /** The values a bucket still has to give. */
  function Kept(b: Bucket): set<int> {
    Values(b.current) + PrefetchValues(b) + JobValues(b)
  }

  /** No value is in two places, and a renewal finds the place for its result empty. */
  ghost predicate BucketOk(b: Bucket) {
    && Values(b.current) !! PrefetchValues(b) && Values(b.current) !! JobValues(b) && PrefetchValues(b) !! JobValues(b)
    && (b.job != NoJob && !b.job.sync ==> b.prefetch == None)
    && (b.job != NoJob && b.job.sync ==> !HasNext(b.current) && !Prefetched(b))
  }

  /** A pass through the lock draws one value or moves values about; none is lost or doubled. */
  lemma {:induction false} NextPassKeeps(b: Bucket, low: int)
    requires BucketOk(b)
    ensures var (answer, b1) := NextPass(b, low);
            && BucketOk(b1)
            && (answer.Took? ==> answer.number in Kept(b) && Kept(b1) == Kept(b) - {answer.number})
            && (!answer.Took? ==> Kept(b1) == Kept(b))
  {
    if HasNext(b.current) {
      var rest := AfterTake(b.current);
      assert Values(rest) == Values(b.current) - {b.current.next};
    } else {
      assert Values(b.current) == {};
    }
  }

  /** What a pass answers: the least value of the current segment; else it switches to the prefetched
      one, waits for the renewal under way, or leases, in that order. */
  lemma {:induction false} NextAnswer(b: Bucket, low: int)
    requires BucketOk(b)
    ensures var (answer, b1) := NextPass(b, low);
            && (answer.Took? <==> Values(b.current) != {})
            && (answer.Took? ==>
                  answer.number in Values(b.current) && forall n | n in Values(b.current) :: answer.number <= n)
            && (answer.Retry? <==> Values(b.current) == {} && PrefetchValues(b) != {})
            && (answer.Retry? ==> Values(b1.current) == PrefetchValues(b))
            && (answer.Wait? <==> Values(b.current) == {} && PrefetchValues(b) == {} && b.job != NoJob)
            && (answer.Lease? <==> Values(b.current) == {} && PrefetchValues(b) == {} && b.job == NoJob)
            && (answer.Lease? ==> b1.job == Asked(true))
  {
    FirstIsLeast(b.current);
    if b.prefetch.Some? {
      FirstIsLeast(b.prefetch.value);
    }
  }

  lemma {:induction false} FirstIsLeast(s: Segment)
    ensures HasNext(s) <==> Values(s) != {}
    ensures HasNext(s) ==> s.next in Values(s)
  {
    if HasNext(s) {
      assert s.next in Values(s);
    }
  }

  /** A background renewal starts exactly when a draw leaves at most `low` values and nothing is
      prefetched or under way; so a bucket that draws is never low without a renewal. */
  lemma {:induction false} RenewsAhead(b: Bucket, low: int)
    requires BucketOk(b) && NextPass(b, low).0.Took?
    ensures var b1 := NextPass(b, low).1;
            && b1.prefetch == b.prefetch
            && (b1.job != b.job <==> b.job == NoJob && b.prefetch == None && |Values(b1.current)| <= low)
            && (b1.job != b.job ==> b1.job == Asked(false))
  {
    CountValues(AfterTake(b.current));
  }

  lemma {:induction false} CountValues(s: Segment)
    ensures |Values(s)| == Remaining(s)
    decreases Remaining(s)
  {
    if HasNext(s) {
      var rest := AfterTake(s);
      CountValues(rest);
      assert Values(s) == Values(rest) + {s.next as int};
    } else {
      assert Values(s) == {};
    }
  }

  lemma {:induction false} LeaseAppliedKeeps(b: Bucket)
    requires BucketOk(b)
    ensures BucketOk(LeaseApplied(b)) && Kept(LeaseApplied(b)) == Kept(b)
  {
    if b.job.Granted? && b.job.sync {
      assert Values(b.current) == {};
    }
  }

  /** A renewal's result serves where it was wanted: what a waiting caller leased is drawn from next,
      what was leased ahead waits behind the current segment; in any case the next renewal may start. */
  lemma {:induction false} LeaseServes(b: Bucket, low: int)
    requires BucketOk(b) && (b.job.Granted? || b.job.Refused?)
    ensures var b1 := LeaseApplied(b);
            && b1.job == NoJob
            && (b.job.Refused? ==> b1.current == b.current && b1.prefetch == b.prefetch)
            && (b.job.Granted? && b.job.sync && Values(b.job.segment) != {} ==>
                  NextPass(b1, low).0.Took? && NextPass(b1, low).0.number in Values(b.job.segment))
            && (b.job.Granted? && !b.job.sync ==>
                  b1.current == b.current && PrefetchValues(b1) == Values(b.job.segment))
  {
    if b.job.Granted? {
      FirstIsLeast(b.job.segment);
    }
  }

  // ---------- the protocol ----------

  /** A bucket belongs to one provider (one process) and one kind of number. */
  datatype Id = Id(provider: nat, key: Key)

  datatype Drawn = Drawn(id: Id, number: nat)

  /** The sequence table, every provider's buckets, the providers that have crashed, and two
      records for reasoning: all values drawn, in order, and all values leased to each bucket. */
  datatype Alloc = Alloc(
    store: map<Key, nat>,
    buckets: map<Id, Bucket>,
    dead: set<nat>,
    drawn: seq<Drawn>,
    leased: map<Id, set<int>>)

  const FRESH := Alloc(map[], map[], {}, [], map[])

  datatype Reply = Answered | Rejects | Lost

  datatype AllocEvent =
    | NextCalled(id: Id, low: int)
    | LeaseRun(id: Id, batch: nat, reply: Reply)
    | LeaseReturned(id: Id)
    | Died(provider: nat)

  function BucketOf(s: Alloc, id: Id): Bucket {
    if id in s.buckets then s.buckets[id] else EMPTY_BUCKET
  }

  function LeasedTo(s: Alloc, id: Id): set<int> {
    if id in s.leased then s.leased[id] else {}
  }

  function NextValue(s: Alloc, k: Key): nat {
    if k in s.store then s.store[k] else 0
  }

  /** UPDATE code_sequence SET next_value = next_value + batch, then the reply, which may get lost. */
  function RunLease(s: Alloc, id: Id, batch: nat, reply: Reply): Alloc
    requires BucketOf(s, id).job.Asked?
  {
    var b, start := BucketOf(s, id), NextValue(s, id.key);
    var store := if reply == Rejects then s.store else s.store[id.key := start + batch];
    if reply == Answered then
      var segment := Segment(start, start + batch - 1, true);
      s.(store := store, buckets := s.buckets[id := b.(job := Granted(b.job.sync, segment))],
         leased := s.leased[id := LeasedTo(s, id) + Values(segment)])
      else s.(store := store, buckets := s.buckets[id := b.(job := Refused(b.job.sync))])
  }

  function AllocStep(s: Alloc, e: AllocEvent): Alloc {
    match e
    case NextCalled(id, low) =>
      if id.provider in s.dead then s
      else
        var (answer, b) := NextPass(BucketOf(s, id), low);
        s.(buckets := s.buckets[id := b],
           drawn := if answer.Took? then s.drawn + [Drawn(id, answer.number)] else s.drawn)
    case LeaseRun(id, batch, reply) =>
      if id.provider in s.dead || !BucketOf(s, id).job.Asked? || batch == 0 then s else RunLease(s, id, batch, reply)
    case LeaseReturned(id) =>
      if id.provider in s.dead then s else s.(buckets := s.buckets[id := LeaseApplied(BucketOf(s, id))])
    case Died(p) => s.(dead := s.dead + {p})
  }

  function AllocRun(run: seq<AllocEvent>): Alloc {
    if run == [] then FRESH else AllocStep(AllocRun(run[..|run| - 1]), run[|run| - 1])
  }

  // ---------- nothing twice, nothing lost ----------

  ghost function DrawnBy(drawn: seq<Drawn>, id: Id): set<int> {
    set d | d in drawn && d.id == id :: d.number
  }

  /** What was leased to a bucket is what it has drawn and what it keeps, and no more. */
  ghost predicate IdOk(s: Alloc, id: Id) {
    var b := BucketOf(s, id);
    && BucketOk(b)
    && LeasedTo(s, id) == DrawnBy(s.drawn, id) + Kept(b) && DrawnBy(s.drawn, id) !! Kept(b)
    && forall n | n in LeasedTo(s, id) :: 0 <= n < NextValue(s, id.key)
  }

  ghost predicate LeasesApart(s: Alloc, id: Id, other: Id) {
    id != other && id.key == other.key ==> LeasedTo(s, id) !! LeasedTo(s, other)
  }

  /** Two draws for the same kind of number drew different values. */
  predicate DrawsDiffer(a: Drawn, b: Drawn) {
    a.id.key == b.id.key ==> a.number != b.number
  }

  ghost predicate AllocOk(s: Alloc) {
    && (forall id {:trigger IdOk(s, id)} :: IdOk(s, id))
    && (forall id, other {:trigger LeasesApart(s, id, other)} :: LeasesApart(s, id, other))
    && (forall i, j {:trigger DrawsDiffer(s.drawn[i], s.drawn[j])} | 0 <= i < j < |s.drawn| ::
          DrawsDiffer(s.drawn[i], s.drawn[j]))
  }

  lemma {:induction false} DrawnSnoc(drawn: seq<Drawn>, d: Drawn, id: Id)
    ensures DrawnBy(drawn + [d], id) == DrawnBy(drawn, id) + (if d.id == id then {d.number as int} else {})
  {
  }

  lemma {:induction false} OthersSame(s: Alloc, s1: Alloc, id: Id, other: Id)
    requires IdOk(s, other)
    requires BucketOf(s1, other) == BucketOf(s, other) && LeasedTo(s1, other) == LeasedTo(s, other)
    requires DrawnBy(s1.drawn, other) == DrawnBy(s.drawn, other) && NextValue(s1, other.key) >= NextValue(s, other.key)
    ensures IdOk(s1, other)
  {
  }

  lemma {:induction false} NextKeepsOk(s: Alloc, id: Id, low: int)
    requires AllocOk(s)
    ensures AllocOk(AllocStep(s, NextCalled(id, low)))
  {
    if id.provider !in s.dead {
      var s1 := AllocStep(s, NextCalled(id, low));
      var (answer, b) := NextPass(BucketOf(s, id), low);
      assert IdOk(s, id);
      NextPassKeeps(BucketOf(s, id), low);
      if answer.Took? {
        forall other
          ensures DrawnBy(s1.drawn, other)
               == DrawnBy(s.drawn, other) + (if other == id then {answer.number as int} else {})
        {
          DrawnSnoc(s.drawn, Drawn(id, answer.number), other);
        }
        NewDraw(s, id, answer.number);
      }
      forall other
        ensures IdOk(s1, other)
      {
        assert IdOk(s, other);
        if other != id {
          OthersSame(s, s1, id, other);
        }
      }
      forall i, j
        ensures LeasesApart(s1, i, j)
      {
        assert LeasesApart(s, i, j);
      }
    }
  }

  /** A value a bucket keeps has not been drawn by anyone for the same kind of number. */
  lemma {:induction false} NewDraw(s: Alloc, id: Id, n: nat)
    requires AllocOk(s) && n in Kept(BucketOf(s, id))
    ensures var drawn := s.drawn + [Drawn(id, n)];
            forall i, j {:trigger DrawsDiffer(drawn[i], drawn[j])} | 0 <= i < j < |drawn| ::
              DrawsDiffer(drawn[i], drawn[j])
  {
    var drawn := s.drawn + [Drawn(id, n)];
    forall i, j | 0 <= i < j < |drawn|
      ensures DrawsDiffer(drawn[i], drawn[j])
    {
      if j < |s.drawn| {
        assert DrawsDiffer(s.drawn[i], s.drawn[j]);
      } else {
        var d := s.drawn[i];
        assert IdOk(s, id) && IdOk(s, d.id) && LeasesApart(s, id, d.id);
        assert d.number in DrawnBy(s.drawn, d.id);
      }
    }
  }

  lemma {:induction false} RunLeaseOwn(s: Alloc, id: Id, batch: nat, reply: Reply)
    requires IdOk(s, id) && BucketOf(s, id).job.Asked? && batch > 0
    ensures IdOk(RunLease(s, id, batch, reply), id)
  {
  }

  lemma {:induction false} RunLeaseKeepsOk(s: Alloc, id: Id, batch: nat, reply: Reply)
    requires AllocOk(s) && BucketOf(s, id).job.Asked? && batch > 0
    ensures AllocOk(RunLease(s, id, batch, reply))
  {
    var s1 := RunLease(s, id, batch, reply);
    assert IdOk(s, id);
    RunLeaseOwn(s, id, batch, reply);
    forall other
      ensures IdOk(s1, other)
    {
      assert IdOk(s, other);
      if other != id {
        OthersSame(s, s1, id, other);
      }
    }
    forall i, j
      ensures LeasesApart(s1, i, j)
    {
      assert LeasesApart(s, i, j) && IdOk(s, i) && IdOk(s, j);
    }
  }

  lemma {:induction false} ReturnKeepsOk(s: Alloc, id: Id)
    requires AllocOk(s)
    ensures AllocOk(AllocStep(s, LeaseReturned(id)))
  {
    var s1 := AllocStep(s, LeaseReturned(id));
    assert IdOk(s, id);
    LeaseAppliedKeeps(BucketOf(s, id));
    forall other
      ensures IdOk(s1, other)
    {
      assert IdOk(s, other);
      if other != id {
        OthersSame(s, s1, id, other);
      }
    }
    forall i, j
      ensures LeasesApart(s1, i, j)
    {
      assert LeasesApart(s, i, j);
    }
  }

  lemma {:induction false} DeathKeepsOk(s: Alloc, p: nat)
    requires AllocOk(s)
    ensures AllocOk(AllocStep(s, Died(p)))
  {
    var s1 := AllocStep(s, Died(p));
    forall other
      ensures IdOk(s1, other)
    {
      assert IdOk(s, other);
    }
    forall i, j
      ensures LeasesApart(s1, i, j)
    {
      assert LeasesApart(s, i, j);
    }
  }

  lemma {:induction false} AllocStepKeepsOk(s: Alloc, e: AllocEvent)
    requires AllocOk(s)
    ensures AllocOk(AllocStep(s, e))
  {
    match e
    case NextCalled(id, low) =>
      NextKeepsOk(s, id, low);
    case LeaseRun(id, batch, reply) =>
      if id.provider !in s.dead && BucketOf(s, id).job.Asked? && batch != 0 {
        RunLeaseKeepsOk(s, id, batch, reply);
      }
    case LeaseReturned(id) =>
      ReturnKeepsOk(s, id);
    case Died(p) =>
      DeathKeepsOk(s, p);
  }

  /** However calls, renewals, lost replies and crashes of several providers interleave: no value
      is drawn twice for one kind of number, and each bucket's leases are accounted for exactly. */
  lemma {:induction false} AllocationIsExact(run: seq<AllocEvent>)
    ensures AllocOk(AllocRun(run))
  {
    if run == [] {
      forall id
        ensures IdOk(FRESH, id)
      {
        assert Values(EMPTY_BUCKET.current) == {};
      }
    } else {
      var n := |run| - 1;
      AllocationIsExact(run[..n]);
      AllocStepKeepsOk(AllocRun(run[..n]), run[n]);
    }
  }

  ghost predicate LeasedAs(s: Alloc, id: Id, k: Key, n: int) {
    id.key == k && n in LeasedTo(s, id)
  }

  ghost predicate IsLeased(s: Alloc, k: Key, n: int) {
    exists id :: LeasedAs(s, id, k, n)
  }

  /** Every value the store has given out is leased to a bucket. */
  ghost predicate NoGap(s: Alloc, k: Key) {
    forall n | 0 <= n < NextValue(s, k) :: IsLeased(s, k, n)
  }

  lemma {:induction false} StillNoGap(s: Alloc, s1: Alloc, k: Key)
    requires NoGap(s, k) && s1.store == s.store && s1.leased == s.leased
    ensures NoGap(s1, k)
  {
    forall n | 0 <= n < NextValue(s1, k)
      ensures IsLeased(s1, k, n)
    {
      assert IsLeased(s, k, n);
      var id :| LeasedAs(s, id, k, n);
      assert LeasedAs(s1, id, k, n);
    }
  }

  /** The store counts on by the batch, and the bucket gets all of the values between. */
  lemma {:induction false} LeaseFills(s: Alloc, id: Id, batch: nat, k: Key)
    requires BucketOf(s, id).job.Asked? && NoGap(s, k)
    ensures var s1 := RunLease(s, id, batch, Answered);
            NoGap(s1, k) && NextValue(s1, id.key) == NextValue(s, id.key) + batch
  {
    var s1 := RunLease(s, id, batch, Answered);
    var start := NextValue(s, id.key);
    var segment := Segment(start, start + batch - 1, true);
    assert s1.leased[id] == LeasedTo(s, id) + Values(segment);
    forall n | 0 <= n < NextValue(s1, k)
      ensures IsLeased(s1, k, n)
    {
      if n < NextValue(s, k) {
        assert IsLeased(s, k, n);
        var i :| LeasedAs(s, i, k, n);
        assert LeasedAs(s1, i, k, n);
      } else {
        assert id.key == k && Within(segment, n);
        assert LeasedAs(s1, id, k, n);
      }
    }
  }

  /** No value is skipped: as long as no reply gets lost, every value below the store's next one has
      been leased to a bucket. */
  lemma {:induction false} NothingSkipped(run: seq<AllocEvent>, k: Key)
    requires forall e | e in run :: e.LeaseRun? ==> e.reply != Lost
    ensures NoGap(AllocRun(run), k)
  {
    if run == [] {
    } else {
      var n := |run| - 1;
      var s, e := AllocRun(run[..n]), run[n];
      assert e in run && forall e | e in run[..n] :: e in run;
      NothingSkipped(run[..n], k);
      if e.LeaseRun? && e.id.provider !in s.dead && BucketOf(s, e.id).job.Asked? && e.batch != 0 {
        if e.reply == Answered {
          LeaseFills(s, e.id, e.batch, k);
        } else {
          StillNoGap(s, RunLease(s, e.id, e.batch, e.reply), k);
        }
      } else {
        StillNoGap(s, AllocStep(s, e), k);
      }
    }
  }

  /** All numbers ever issued are different, whatever they were asked for: two merchants whose
      hashes collide, or two account types that share a code, still get different numbers. */
  lemma {:induction false} IssuedCodesDistinct(run: seq<AllocEvent>, hash: string -> nat, i: nat, u: Purpose, j: nat,
                                               v: Purpose)
    requires i < j < |AllocRun(run).drawn|
    requires AllocRun(run).drawn[i].id.key == KeyFor(hash, u) && AllocRun(run).drawn[j].id.key == KeyFor(hash, v)
    requires Code(KeyFor(hash, u), AllocRun(run).drawn[i].number).Some?
    ensures var drawn := AllocRun(run).drawn;
            Code(KeyFor(hash, u), drawn[i].number) != Code(KeyFor(hash, v), drawn[j].number)
  {
    var drawn := AllocRun(run).drawn;
    AllocationIsExact(run);
    assert DrawsDiffer(drawn[i], drawn[j]);
    if Code(KeyFor(hash, u), drawn[i].number) == Code(KeyFor(hash, v), drawn[j].number) {
      CodeInjective(KeyFor(hash, u), drawn[i].number, KeyFor(hash, v), drawn[j].number);
    }
  }

  // ---------- codeBucket ----------

  class CodeBucket {
    var current: Segment
    var prefetch: Option<Segment>
    var renewing: bool
    /** What the renewal behind `renewing` has come to. */
    ghost var job: Job

    ghost function Contents(): Bucket
      reads this
    {
      Bucket(current, prefetch, job)
    }

    ghost predicate Valid()
      reads this
    {
      BucketOk(Contents()) && (renewing <==> job != NoJob)
    }

    constructor ()
      ensures Valid() && Contents() == EMPTY_BUCKET
    {
      current := Segment(0, 0, false);
      prefetch := None;
      renewing := false;
      job := NoJob;
    }

    /** take: hand out the next value of the current segment. */
    method Take() returns (v: nat)
      requires HasNext(current)
      modifies this`current
      ensures v == old(current.next) && current == AfterTake(old(current))
      ensures v in old(Values(current)) && Values(current) == old(Values(current)) - {v}
    {
      v := current.next;
      current := current.(next := current.next + 1);
      if current.next > current.end {
        current := current.(valid := false);
      }
    }

    /** One pass of nextSeq through the lock: no value is lost or doubled by it. */
    method Next(lowWatermark: int) returns (answer: Answer)
      requires Valid()
      modifies this
      ensures Valid() && (answer, Contents()) == NextPass(old(Contents()), lowWatermark)
      ensures answer.Took? ==> answer.number in old(Kept(Contents()))
      ensures answer.Took? ==> Kept(Contents()) == old(Kept(Contents())) - {answer.number}
      ensures !answer.Took? ==> Kept(Contents()) == old(Kept(Contents()))
    {
      NextPassKeeps(Contents(), lowWatermark);
      if HasNext(current) {
        var v := Take();
        if Remaining(current) <= lowWatermark && prefetch == None && !renewing {
          renewing := true;
          job := Asked(false);
        }
        return Took(v);
      }
      if prefetch.Some? && HasNext(prefetch.value) {
        current := prefetch.value;
        prefetch := None;
        return Retry;
      }
      if renewing {
        return Wait;
      }
      renewing := true;
      job := Asked(true);
      return Lease;
    }

    /** The end of a renewal, by the waiting caller (`sync`) or in the background. */
    method FinishLease(sync: bool, granted: Option<Segment>)
      requires Valid() && job == (if granted.Some? then Granted(sync, granted.value) else Refused(sync))
      modifies this
      ensures Valid() && Contents() == LeaseApplied(old(Contents())) && Kept(Contents()) == old(Kept(Contents()))
    {
      LeaseAppliedKeeps(Contents());
      if granted.Some? {
        if sync {
          current := granted.value;
        } else {
          prefetch := granted;
        }
      }
      renewing := false;
      job := NoJob;
    }
  }
}
