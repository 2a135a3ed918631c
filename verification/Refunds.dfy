/** Refund re-slicing: which slice of the origin's debit trace a refund gives back, and into
    books of which expiry dates (buildRefundBookCreditParts). */
module Refunds {
  import opened Domain
  import opened Collections
  import opened Books
  import opened Fefo

  /** Whole days between spending and expiry, saturated as Go's Time.Sub and at least 1. */
  function RemainingDays(expireAt: Date, spentOn: Date): int {
    var days := Min(expireAt - spentOn, MAX_DAYS);
    if days <= 0 then 1 else days
  }

  function RestoredExpiry(c: BookChange, base: Date): Date {
    base + RemainingDays(c.expireAt, c.createdOn)
  }

  function Consumed(c: BookChange): int {
    if c.delta < 0 then -c.delta else 0
  }

  /** How much of each trace entry a refund of `want` restores when the first `offset` units of
      the trace have already been given back. */
  function Uses(trace: seq<BookChange>, offset: int, want: int): (r: seq<int>)
    requires offset >= 0 && want >= 0
    ensures |r| == |trace|
  {
    if trace == [] then []
    else
      var c := Consumed(trace[0]);
      var done := Min(offset, c);
      var use := Min(c - done, want);
      [use] + Uses(trace[1..], offset - done, want - use)
  }

  /** Appending to a part list merges with the last part when the date is the same. */
  function Append(parts: seq<Part>, p: Part): seq<Part> {
    var n := |parts|;
    if n > 0 && parts[n - 1].expireAt == p.expireAt
    then parts[..n - 1] + [Part(p.expireAt, parts[n - 1].amount + p.amount)]
    else parts + [p]
  }

  /** The used slices as credit parts, appended to `parts`. */
  function Dated(parts: seq<Part>, trace: seq<BookChange>, uses: seq<int>, base: Date): seq<Part>
    requires |uses| == |trace|
    decreases |trace|
  {
    if trace == [] then parts
    else
      var next := if uses[0] == 0 then parts else Append(parts, Part(RestoredExpiry(trace[0], base), uses[0]));
      Dated(next, trace[1..], uses[1..], base)
  }

  function RefundParts(trace: seq<BookChange>, offset: int, want: int, base: Date): seq<Part>
    requires offset >= 0 && want >= 0
  {
    Dated([], trace, Uses(trace, offset, want), base)
  }

  function ConsumedTotal(trace: seq<BookChange>): int {
    SumBy(Consumed, trace)
  }

  // ---------- the loop ----------

  /** The slicing as the loop goes through it, entry by entry: the parts so far and what is still
      to be restored. */
  function Sliced(parts: seq<Part>, trace: seq<BookChange>, offset: int, want: int, base: Date): (seq<Part>, int)
    requires offset >= 0 && want >= 0
    decreases |trace|
  {
    if trace == [] then (parts, want)
    else
      var c := Consumed(trace[0]);
      var done := Min(offset, c);
      var use := Min(c - done, want);
      var next := if use == 0 then parts else Append(parts, Part(RestoredExpiry(trace[0], base), use));
      Sliced(next, trace[1..], offset - done, want - use, base)
  }

  lemma {:induction false} SlicedIsDated(parts: seq<Part>, trace: seq<BookChange>, offset: int, want: int, base: Date)
    requires offset >= 0 && want >= 0
    ensures Sliced(parts, trace, offset, want, base)
         == (Dated(parts, trace, Uses(trace, offset, want), base), want - SumBy(Identity, Uses(trace, offset, want)))
    decreases |trace|
  {
    if trace == [] {
    } else {
      var c := Consumed(trace[0]);
      var done := Min(offset, c);
      var use := Min(c - done, want);
      var next := if use == 0 then parts else Append(parts, Part(RestoredExpiry(trace[0], base), use));
      SlicedIsDated(next, trace[1..], offset - done, want - use, base);
      assert Uses(trace, offset, want)[1..] == Uses(trace[1..], offset - done, want - use);
    }
  }

  lemma {:induction false} SlicedNothing(parts: seq<Part>, trace: seq<BookChange>, offset: int, base: Date)
    requires offset >= 0
    ensures Sliced(parts, trace, offset, 0, base) == (parts, 0)
    decreases |trace|
  {
    if trace == [] {
    } else {
      SlicedNothing(parts, trace[1..], offset - Min(offset, Consumed(trace[0])), base);
    }
  }

  lemma {:induction false} SlicedStep(parts: seq<Part>, trace: seq<BookChange>, i: nat, offset: int, want: int,
                                      base: Date)
    requires i < |trace| && offset >= 0 && want >= 0
    ensures var c := Consumed(trace[i]);
            var done := Min(offset, c);
            var use := Min(c - done, want);
            var next := if use == 0 then parts else Append(parts, Part(RestoredExpiry(trace[i], base), use));
            Sliced(parts, trace[i..], offset, want, base)
              == Sliced(next, trace[i + 1..], offset - done, want - use, base)
  {
    assert trace[i..][1..] == trace[i + 1..];
  }

  /** What one entry of the trace contributes: skipped, or restored in part or whole. */
  method SliceEntry(debit: BookChange, parts: seq<Part>, leftOffset: int, leftRefund: int, base: Date)
    returns (parts1: seq<Part>, leftOffset1: int, leftRefund1: int)
    requires leftOffset >= 0 && leftRefund > 0
    ensures var c := Consumed(debit);
            var done := Min(leftOffset, c);
            var use := Min(c - done, leftRefund);
            && parts1 == (if use == 0 then parts else Append(parts, Part(RestoredExpiry(debit, base), use)))
            && leftOffset1 == leftOffset - done >= 0 && leftRefund1 == leftRefund - use >= 0
  {
    parts1, leftOffset1, leftRefund1 := parts, leftOffset, leftRefund;
    var consumed := -debit.delta;
    if consumed <= 0 {
      return;
    }
    var alreadyRefunded := Min(leftOffset, consumed);
    leftOffset1 := leftOffset - alreadyRefunded;
    var available := consumed - alreadyRefunded;
    if available <= 0 {
      return;
    }
    var use := Min(available, leftRefund);
    var remainingDays := Min(debit.expireAt - debit.createdOn, MAX_DAYS);
    if remainingDays <= 0 {
      remainingDays := 1;
    }
    var expireAt := base + remainingDays;
    var n := |parts|;
    if n > 0 && parts[n - 1].expireAt == expireAt {
      parts1 := parts[..n - 1] + [Part(expireAt, parts[n - 1].amount + use)];
    } else {
      parts1 := parts + [Part(expireAt, use)];
    }
    leftRefund1 := leftRefund - use;
  }

  /** The slicing loop of buildRefundBookCreditParts. */
  method SliceLoop(trace: seq<BookChange>, priorDebited: int, refundAmount: int, base: Date)
    returns (parts: seq<Part>, leftRefund: int)
    requires priorDebited >= 0 && refundAmount > 0
    ensures parts == RefundParts(trace, priorDebited, refundAmount, base)
    ensures leftRefund == refundAmount - SumBy(Identity, Uses(trace, priorDebited, refundAmount))
  {
    SlicedIsDated([], trace, priorDebited, refundAmount, base);
    var leftOffset := priorDebited;
    leftRefund := refundAmount;
    parts := [];
    var i := 0;
    ghost var goal := Sliced([], trace, priorDebited, refundAmount, base);
    while i < |trace|
      invariant 0 <= i <= |trace| && leftOffset >= 0 && leftRefund > 0
      invariant Sliced(parts, trace[i..], leftOffset, leftRefund, base) == goal
    {
      SlicedStep(parts, trace, i, leftOffset, leftRefund, base);
      parts, leftOffset, leftRefund := SliceEntry(trace[i], parts, leftOffset, leftRefund, base);
      i := i + 1;
      if leftRefund == 0 {
        SlicedNothing(parts, trace[i..], leftOffset, base);
        return;
      }
    }
  }

  // ---------- how much is restored ----------

  /** The position of entry `i` in the trace, counted in units of money. */
  ghost function Start(trace: seq<BookChange>, i: nat): int
    requires i <= |trace|
  {
    ConsumedTotal(trace[..i])
  }

  /** The length of the intersection of [lo, hi) and [a, b). */
  ghost function Overlap(lo: int, hi: int, a: int, b: int): int {
    var left := if lo < a then a else lo;
    var right := if hi < b then hi else b;
    if left < right then right - left else 0
  }

  /** A refund restores the interval [offset, offset + want) of the trace and nothing else. */
  lemma {:induction false} UsesAreInterval(trace: seq<BookChange>, offset: int, want: int, i: nat)
    requires offset >= 0 && want >= 0 && i < |trace|
    ensures Uses(trace, offset, want)[i] == Overlap(offset, offset + want, Start(trace, i), Start(trace, i + 1))
  {
    var c := Consumed(trace[0]);
    var done := Min(offset, c);
    var use := Min(c - done, want);
    if i == 0 {
      assert trace[..0] == [] && trace[..1] == [trace[0]];
      SumOne(Consumed, trace[0]);
    } else {
      UsesAreInterval(trace[1..], offset - done, want - use, i - 1);
      StartTail(trace, i);
      StartTail(trace, i + 1);
      StartNonNegative(trace[1..], i - 1);
    }
  }

  lemma StartTail(trace: seq<BookChange>, i: nat)
    requires 0 < i <= |trace|
    ensures Start(trace, i) == Consumed(trace[0]) + Start(trace[1..], i - 1)
  {
    assert trace[..i][1..] == trace[1..][..i - 1];
  }

  lemma {:induction false} StartNonNegative(trace: seq<BookChange>, i: nat)
    requires i <= |trace|
    ensures Start(trace, i) >= 0
  {
    if i > 0 {
      StartTail(trace, i);
      StartNonNegative(trace[1..], i - 1);
    }
  }

  lemma {:induction false} UsesBounds(trace: seq<BookChange>, offset: int, want: int)
    requires offset >= 0 && want >= 0
    ensures forall i | 0 <= i < |trace| :: 0 <= Uses(trace, offset, want)[i] <= Consumed(trace[i])
    ensures SumBy(Identity, Uses(trace, offset, want)) <= want
    ensures offset + want <= ConsumedTotal(trace) ==> SumBy(Identity, Uses(trace, offset, want)) == want
  {
    if trace == [] {
    } else {
      var c := Consumed(trace[0]);
      var done := Min(offset, c);
      var use := Min(c - done, want);
      var r := Uses(trace, offset, want);
      assert r[1..] == Uses(trace[1..], offset - done, want - use);
      UsesBounds(trace[1..], offset - done, want - use);
      ConsumedNonNegative(trace[1..]);
    }
  }

  lemma {:induction false} ConsumedNonNegative(trace: seq<BookChange>)
    ensures ConsumedTotal(trace) >= 0
  {
    if trace == [] {
    } else {
      ConsumedNonNegative(trace[1..]);
    }
  }

  /** Consecutive refunds restore adjacent slices: together they restore what one refund of the
      sum would. */
  lemma {:induction false} AdjacentSlices(trace: seq<BookChange>, offset: int, first: int, second: int, i: nat)
    requires offset >= 0 && first >= 0 && second >= 0 && i < |trace|
    ensures Uses(trace, offset, first)[i] + Uses(trace, offset + first, second)[i]
         == Uses(trace, offset, first + second)[i]
  {
    UsesAreInterval(trace, offset, first, i);
    UsesAreInterval(trace, offset + first, second, i);
    UsesAreInterval(trace, offset, first + second, i);
    StartMonotone(trace, i);
  }

  lemma StartMonotone(trace: seq<BookChange>, i: nat)
    requires i < |trace|
    ensures Start(trace, i + 1) == Start(trace, i) + Consumed(trace[i])
  {
    assert trace[..i + 1] == trace[..i] + [trace[i]];
    SumConcat(Consumed, trace[..i], [trace[i]]);
    SumOne(Consumed, trace[i]);
  }

  lemma FullRefundCovers(trace: seq<BookChange>, want: int, i: nat)
    requires want >= ConsumedTotal(trace) && want >= 0 && i < |trace|
    ensures Uses(trace, 0, want)[i] == Consumed(trace[i])
  {
    UsesAreInterval(trace, 0, want, i);
    StartMonotone(trace, i);
    StartNonNegative(trace, i);
    assert trace == trace[..i + 1] + trace[i + 1..];
    SumConcat(Consumed, trace[..i + 1], trace[i + 1..]);
    ConsumedNonNegative(trace[i + 1..]);
  }

  // ---------- which books it is restored to ----------

  /** The debit trace of one debit: one entry per book, in expiry order, made on one day. */
  ghost predicate GoodTrace(trace: seq<BookChange>, amount: int) {
    && ConsumedTotal(trace) == amount
    && (forall c | c in trace :: c.delta < 0 && ClockInRange(c.createdOn) && c.createdOn == trace[0].createdOn)
    && (forall i, j | 0 <= i < j < |trace| :: Before(trace[i].expireAt, trace[j].expireAt))
  }

  ghost predicate Ascending(parts: seq<Part>) {
    forall i, j | 0 <= i < j < |parts| :: parts[i].expireAt < parts[j].expireAt
  }

  ghost predicate Positive(parts: seq<Part>) {
    forall p | p in parts :: p.amount > 0
  }

  lemma {:induction false} DatedTotal(parts: seq<Part>, trace: seq<BookChange>, uses: seq<int>, base: Date)
    requires |uses| == |trace|
    ensures PartsTotal(Dated(parts, trace, uses, base)) == PartsTotal(parts) + SumBy(Identity, uses)
    decreases |trace|
  {
    if trace == [] {
    } else {
      var p := Part(RestoredExpiry(trace[0], base), uses[0]);
      var next := if uses[0] == 0 then parts else Append(parts, p);
      DatedTotal(next, trace[1..], uses[1..], base);
      AppendSum((q: Part) => q.amount, parts, p);
    }
  }

  lemma {:induction false} AppendSum(f: Part -> int, parts: seq<Part>, p: Part)
    requires parts != [] && parts[|parts| - 1].expireAt == p.expireAt ==>
      f(Part(p.expireAt, parts[|parts| - 1].amount + p.amount)) == f(parts[|parts| - 1]) + f(p)
    ensures SumBy(f, Append(parts, p)) == SumBy(f, parts) + f(p)
  {
    var n := |parts|;
    if n > 0 && parts[n - 1].expireAt == p.expireAt {
      var merged := Part(p.expireAt, parts[n - 1].amount + p.amount);
      assert parts == parts[..n - 1] + [parts[n - 1]];
      SumSnoc(f, parts[..n - 1], parts[n - 1]);
      SumSnoc(f, parts[..n - 1], merged);
    } else {
      SumSnoc(f, parts, p);
    }
  }

  /** What the slices whose restored expiry is `d` add up to. */
  ghost function UsesAt(trace: seq<BookChange>, uses: seq<int>, base: Date, d: Date): int
    requires |uses| == |trace|
  {
    if trace == [] then 0
    else (if RestoredExpiry(trace[0], base) == d then uses[0] else 0) + UsesAt(trace[1..], uses[1..], base, d)
  }

  /** Every restored unit lands in the book that expires as many days after the refund as its own
      book had left when it was spent. */
  lemma {:induction false} DatedAt(parts: seq<Part>, trace: seq<BookChange>, uses: seq<int>, base: Date, d: Date)
    requires |uses| == |trace|
    ensures PartsAt(Dated(parts, trace, uses, base), d) == PartsAt(parts, d) + UsesAt(trace, uses, base, d)
    decreases |trace|
  {
    if trace == [] {
    } else {
      var p := Part(RestoredExpiry(trace[0], base), uses[0]);
      var next := if uses[0] == 0 then parts else Append(parts, p);
      DatedAt(next, trace[1..], uses[1..], base, d);
      AppendSum(AmountOn(d), parts, p);
    }
  }

  lemma RestoredExpiryMonotone(a: BookChange, b: BookChange, base: Date)
    requires a.createdOn == b.createdOn && ClockInRange(b.createdOn)
    requires Before(a.expireAt, b.expireAt)
    ensures RestoredExpiry(a, base) <= RestoredExpiry(b, base)
  {
  }

  lemma {:induction false} DatedOrder(parts: seq<Part>, trace: seq<BookChange>, uses: seq<int>, base: Date)
    requires |uses| == |trace|
    requires forall i | 0 <= i < |uses| :: uses[i] >= 0
    requires forall c | c in trace :: ClockInRange(c.createdOn) && c.createdOn == trace[0].createdOn
    requires forall i, j | 0 <= i < j < |trace| :: Before(trace[i].expireAt, trace[j].expireAt)
    requires Ascending(parts) && Positive(parts)
    requires parts != [] && trace != [] ==> parts[|parts| - 1].expireAt <= RestoredExpiry(trace[0], base)
    ensures Ascending(Dated(parts, trace, uses, base)) && Positive(Dated(parts, trace, uses, base))
    ensures parts != [] ==> Dated(parts, trace, uses, base) != []
    decreases |trace|
  {
    if trace == [] {
    } else {
      var p := Part(RestoredExpiry(trace[0], base), uses[0]);
      var next := if uses[0] == 0 then parts else Append(parts, p);
      AppendOrder(parts, p);
      if |trace| > 1 {
        assert trace[0] in trace && trace[1] in trace && trace[1..][0] == trace[1];
        RestoredExpiryMonotone(trace[0], trace[1], base);
      }
      forall c | c in trace[1..]
        ensures ClockInRange(c.createdOn) && c.createdOn == trace[1..][0].createdOn
      {
        assert c in trace && trace[1] in trace;
      }
      DatedOrder(next, trace[1..], uses[1..], base);
    }
  }

  lemma AppendOrder(parts: seq<Part>, p: Part)
    requires Ascending(parts) && Positive(parts)
    requires parts != [] ==> parts[|parts| - 1].expireAt <= p.expireAt
    ensures Ascending(Append(parts, p))
    ensures p.amount > 0 ==> Positive(Append(parts, p))
    ensures Append(parts, p)[|Append(parts, p)| - 1].expireAt == p.expireAt
  {
    var n := |parts|;
    if n > 0 {
      assert parts[n - 1] in parts;
      assert forall i | 0 <= i < n - 1 :: parts[i].expireAt < parts[n - 1].expireAt;
    }
  }

  lemma {:induction false} DatedInRange(parts: seq<Part>, trace: seq<BookChange>, uses: seq<int>, base: Date)
    requires |uses| == |trace|
    requires forall p | p in parts :: base < p.expireAt <= base + MAX_DAYS
    ensures forall p | p in Dated(parts, trace, uses, base) :: base < p.expireAt <= base + MAX_DAYS
    decreases |trace|
  {
    if trace == [] {
    } else {
      var p := Part(RestoredExpiry(trace[0], base), uses[0]);
      var next := if uses[0] == 0 then parts else Append(parts, p);
      forall q | q in Append(parts, p)
        ensures base < q.expireAt <= base + MAX_DAYS
      {
        if q.expireAt != p.expireAt {
          assert q in parts;
        }
      }
      DatedInRange(next, trace[1..], uses[1..], base);
    }
  }

  /** A refund within the quota always finds its slice: the parts add up to the refund, are
      positive, and go to distinct dated books in ascending order. */
  lemma RefundPartsGood(trace: seq<BookChange>, total: int, offset: int, want: int, base: Date)
    requires GoodTrace(trace, total) && ClockInRange(base)
    requires offset >= 0 && want > 0 && offset + want <= total
    ensures var parts := RefundParts(trace, offset, want, base);
            && PartsTotal(parts) == want && parts != []
            && Positive(parts) && Ascending(parts) && PartsSorted(parts)
            && (forall p | p in parts :: base < p.expireAt < NO_EXPIRE)
    ensures SumBy(Identity, Uses(trace, offset, want)) == want
  {
    var uses := Uses(trace, offset, want);
    UsesBounds(trace, offset, want);
    DatedTotal([], trace, uses, base);
    DatedOrder([], trace, uses, base);
    DatedInRange([], trace, uses, base);
  }

  /** Money that expires on `d` when spent on day `s`; with the most days a refund can give, also all
      money that expires later. */
  predicate DueLike(c: BookChange, s: Date, d: Date) {
    c.expireAt == d || (d == s + MAX_DAYS && c.expireAt > d)
  }

  /** What the slices of such entries add up to. */
  ghost function UsedFrom(trace: seq<BookChange>, uses: seq<int>, s: Date, d: Date): int
    requires |uses| == |trace|
  {
    if trace == [] then 0
    else (if DueLike(trace[0], s, d) then uses[0] else 0) + UsedFrom(trace[1..], uses[1..], s, d)
  }

  /** Spent on day `s` before its book expired. */
  ghost predicate SpentOn(trace: seq<BookChange>, s: Date) {
    forall c | c in trace :: c.createdOn == s && s < c.expireAt
  }

  lemma {:induction false} UsesByDate(trace: seq<BookChange>, uses: seq<int>, s: Date, base: Date, d: Date)
    requires |uses| == |trace| && SpentOn(trace, s) && s < d <= s + MAX_DAYS
    ensures UsesAt(trace, uses, base, base + (d - s)) == UsedFrom(trace, uses, s, d)
  {
    if trace == [] {
    } else {
      assert trace[0] in trace && forall c | c in trace[1..] :: c in trace;
      UsesByDate(trace[1..], uses[1..], s, base, d);
    }
  }

  /** A refund keeps the days: what was spent on day `s` with d - s days left comes back on the date
      that is as many days after the refund; money with more days than a refund can give gets the most
      it can. */
  lemma {:induction false} RefundByDate(trace: seq<BookChange>, offset: int, want: int, s: Date, base: Date, d: Date)
    requires SpentOn(trace, s) && s < d <= s + MAX_DAYS && offset >= 0 && want >= 0
    ensures PartsAt(RefundParts(trace, offset, want, base), base + (d - s))
         == UsedFrom(trace, Uses(trace, offset, want), s, d)
  {
    UsesByDate(trace, Uses(trace, offset, want), s, base, d);
    DatedAt([], trace, Uses(trace, offset, want), base, base + (d - s));
  }

  function TakenFrom(s: Date, d: Date): BookChange -> int {
    (c: BookChange) => if DueLike(c, s, d) && c.delta < 0 then -c.delta else 0
  }

  lemma {:induction false} AllUsed(trace: seq<BookChange>, uses: seq<int>, s: Date, d: Date)
    requires |uses| == |trace| && forall i | 0 <= i < |trace| :: uses[i] == Consumed(trace[i])
    ensures UsedFrom(trace, uses, s, d) == SumBy(TakenFrom(s, d), trace)
  {
    if trace == [] {
    } else {
      AllUsed(trace[1..], uses[1..], s, d);
    }
  }

  /** A full refund gives back, as many days ahead, all that was taken from each book. */
  lemma {:induction false} FullRefundByDate(trace: seq<BookChange>, s: Date, base: Date, d: Date)
    requires SpentOn(trace, s) && s < d <= s + MAX_DAYS
    ensures ConsumedTotal(trace) >= 0
    ensures PartsAt(RefundParts(trace, 0, ConsumedTotal(trace), base), base + (d - s)) == SumBy(TakenFrom(s, d), trace)
  {
    ConsumedNonNegative(trace);
    var want := ConsumedTotal(trace);
    forall i | 0 <= i < |trace|
      ensures Uses(trace, 0, want)[i] == Consumed(trace[i])
    {
      FullRefundCovers(trace, want, i);
    }
    RefundByDate(trace, 0, want, s, base, d);
    AllUsed(trace, Uses(trace, 0, want), s, d);
  }

  // ---------- slices that meet ----------

  /** Two refunds whose slices end at the same unit both restore part of the entry that unit is in. */
  lemma {:induction false} SlicesShareEntry(trace: seq<BookChange>, end: int, a: int, b: int) returns (i: nat)
    requires 0 < a <= end && 0 < b <= end <= ConsumedTotal(trace)
    ensures i < |trace| && Uses(trace, end - a, a)[i] > 0 && Uses(trace, end - b, b)[i] > 0
  {
    i := FindUnit(trace, end - 1);
    UsesAreInterval(trace, end - a, a, i);
    UsesAreInterval(trace, end - b, b, i);
  }

  lemma {:induction false} FindUnit(trace: seq<BookChange>, u: int) returns (i: nat)
    requires 0 <= u < ConsumedTotal(trace)
    ensures i < |trace| && Start(trace, i) <= u < Start(trace, i + 1)
  {
    if u < Consumed(trace[0]) {
      i := 0;
      assert trace[..0] == [] && trace[..1] == [trace[0]];
      SumOne(Consumed, trace[0]);
    } else {
      var j := FindUnit(trace[1..], u - Consumed(trace[0]));
      i := j + 1;
      StartTail(trace, i);
      StartTail(trace, i + 1);
    }
  }
}
