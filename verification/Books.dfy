/** The books of one account: the rows of `account_book` for that account, held in the order
    `ORDER BY (expire_at = no-expire), expire_at` that every listing of them uses. */
module Books {
  import opened Domain
  import opened Collections

  /** Expiry order: earlier dates first, the no-expire date after every other date. */
  predicate Before(a: Date, b: Date) {
    a != NO_EXPIRE && (b == NO_EXPIRE || a < b)
  }

  ghost predicate Sorted(bs: seq<Book>) {
    forall i, j | 0 <= i < j < |bs| :: Before(bs[i].expireAt, bs[j].expireAt)
  }

  function Total(bs: seq<Book>): int {
    SumBy((b: Book) => b.balance, bs)
  }

  predicate Has(bs: seq<Book>, d: Date) {
    exists b | b in bs :: b.expireAt == d
  }

  /** The balance of the book that expires on `d`; 0 when there is none. */
  function BalanceAt(bs: seq<Book>, d: Date): int {
    if bs == [] then 0
    else if bs[0].expireAt == d then bs[0].balance
    else BalanceAt(bs[1..], d)
  }

  /** INSERT ... ON CONFLICT (account_no, expire_at) DO UPDATE SET balance = balance + delta. */
  function Upsert(bs: seq<Book>, d: Date, delta: int): seq<Book> {
    if bs == [] || Before(d, bs[0].expireAt) then [Book(d, delta)] + bs
    else if bs[0].expireAt == d then [Book(d, bs[0].balance + delta)] + bs[1..]
    else [bs[0]] + Upsert(bs[1..], d, delta)
  }

  function ApplyParts(bs: seq<Book>, parts: seq<Part>): seq<Book> {
    if parts == [] then bs
    else
      var n := |parts| - 1;
      Upsert(ApplyParts(bs, parts[..n]), parts[n].expireAt, parts[n].amount)
  }

  function PartsOf(changes: seq<Planned>): (r: seq<Part>)
    ensures |r| == |changes|
  {
    seq(|changes|, i requires 0 <= i < |changes| => Part(changes[i].expireAt, changes[i].delta))
  }

  function PartsTotal(parts: seq<Part>): int {
    SumBy((p: Part) => p.amount, parts)
  }

  function AmountOn(d: Date): Part -> int {
    (p: Part) => if p.expireAt == d then p.amount else 0
  }

  /** What `parts` add to the book of date `d`. */
  function PartsAt(parts: seq<Part>, d: Date): int {
    SumBy(AmountOn(d), parts)
  }

  predicate Usable(d: Date, today: Date) {
    d > today || d == NO_EXPIRE
  }

  /** GetAvailableAccountBookBalanceSum. */
  function AvailableTotal(bs: seq<Book>, today: Date): int {
    SumBy((b: Book) => if Usable(b.expireAt, today) then b.balance else 0, bs)
  }

  /** ListAvailableAccountBooksForUpdate. */
  function Available(bs: seq<Book>, today: Date): seq<Book> {
    Filter((b: Book) => (b.expireAt > today && b.balance > 0) || b.expireAt == NO_EXPIRE, bs)
  }

  /** ListExpiredPositiveAccountBooksForUpdate. */
  function Expired(bs: seq<Book>, today: Date): seq<Book> {
    Filter((b: Book) => !Usable(b.expireAt, today) && b.balance > 0, bs)
  }

  ghost predicate DatedNonNegative(bs: seq<Book>) {
    forall d: Date :: d != NO_EXPIRE ==> BalanceAt(bs, d) >= 0
  }

  ghost predicate PartsSorted(parts: seq<Part>) {
    forall i, j | 0 <= i < j < |parts| :: Before(parts[i].expireAt, parts[j].expireAt)
  }

  // ---------- single upsert ----------

  lemma {:induction false} UpsertMember(bs: seq<Book>, d: Date, delta: int, b: Book)
    requires b in Upsert(bs, d, delta)
    ensures b.expireAt == d || b in bs
  {
    if !(bs == [] || Before(d, bs[0].expireAt)) && bs[0].expireAt != d && b != bs[0] {
      UpsertMember(bs[1..], d, delta, b);
    }
  }

  lemma {:induction false} UpsertKeeps(bs: seq<Book>, d: Date, delta: int, e: Date)
    ensures Has(Upsert(bs, d, delta), e) <==> Has(bs, e) || e == d
  {
    var r := Upsert(bs, d, delta);
    if bs == [] || Before(d, bs[0].expireAt) {
      assert r == [Book(d, delta)] + bs;
      assert Book(d, delta) in r;
      assert forall b | b in bs :: b in r;
    } else if bs[0].expireAt == d {
      var h := Book(d, bs[0].balance + delta);
      assert h in r;
      assert forall b | b in bs :: b == bs[0] || b in bs[1..];
      assert forall b | b in bs[1..] :: b in r;
    } else {
      UpsertKeeps(bs[1..], d, delta, e);
      var t := Upsert(bs[1..], d, delta);
      assert forall b | b in t :: b in r;
      assert forall b | b in bs :: b == bs[0] || b in bs[1..];
      assert bs[0] in r;
      assert forall b | b in r :: b == bs[0] || b in t;
    }
  }

  lemma {:induction false} UpsertSorted(bs: seq<Book>, d: Date, delta: int)
    requires Sorted(bs)
    ensures Sorted(Upsert(bs, d, delta))
  {
    if !(bs == [] || Before(d, bs[0].expireAt)) && bs[0].expireAt != d {
      var t := Upsert(bs[1..], d, delta);
      UpsertSorted(bs[1..], d, delta);
      forall j | 0 <= j < |t|
        ensures Before(bs[0].expireAt, t[j].expireAt)
      {
        UpsertMember(bs[1..], d, delta, t[j]);
      }
    }
  }

  lemma {:induction false} BalanceAtAbsent(bs: seq<Book>, d: Date)
    requires forall b | b in bs :: b.expireAt != d
    ensures BalanceAt(bs, d) == 0
  {
    if bs == [] {
    } else {
      BalanceAtAbsent(bs[1..], d);
    }
  }

  lemma {:induction false} BalanceAtMember(bs: seq<Book>, b: Book)
    requires Sorted(bs) && b in bs
    ensures BalanceAt(bs, b.expireAt) == b.balance
  {
    if bs[0] != b {
      assert bs[0].expireAt != b.expireAt;
      BalanceAtMember(bs[1..], b);
    }
  }

  lemma {:induction false} UpsertBalance(bs: seq<Book>, d: Date, delta: int, e: Date)
    requires Sorted(bs)
    ensures BalanceAt(Upsert(bs, d, delta), e) == BalanceAt(bs, e) + (if e == d then delta else 0)
  {
    if bs == [] || Before(d, bs[0].expireAt) {
      assert ([Book(d, delta)] + bs)[1..] == bs;
      if e == d {
        BalanceAtAbsent(bs, d);
      }
    } else if bs[0].expireAt == d {
      assert ([Book(d, bs[0].balance + delta)] + bs[1..])[1..] == bs[1..];
    } else {
      UpsertBalance(bs[1..], d, delta, e);
      assert ([bs[0]] + Upsert(bs[1..], d, delta))[1..] == Upsert(bs[1..], d, delta);
    }
  }

  lemma {:induction false} UpsertSum(f: Book -> int, bs: seq<Book>, d: Date, delta: int, change: int)
    requires forall x: int, y: int {:trigger Book(d, x), Book(d, y)} ::
      y == x + delta ==> f(Book(d, y)) == f(Book(d, x)) + change
    requires f(Book(d, delta)) == change
    ensures SumBy(f, Upsert(bs, d, delta)) == SumBy(f, bs) + change
  {
    if bs == [] || Before(d, bs[0].expireAt) {
      assert ([Book(d, delta)] + bs)[1..] == bs;
    } else if bs[0].expireAt == d {
      var h := Book(d, bs[0].balance + delta);
      assert bs[0] == Book(d, bs[0].balance);
      assert ([h] + bs[1..])[1..] == bs[1..];
    } else {
      UpsertSum(f, bs[1..], d, delta, change);
      assert ([bs[0]] + Upsert(bs[1..], d, delta))[1..] == Upsert(bs[1..], d, delta);
    }
  }

  // ---------- applying a list of parts ----------

  lemma {:induction false} ApplySorted(bs: seq<Book>, parts: seq<Part>)
    requires Sorted(bs)
    ensures Sorted(ApplyParts(bs, parts))
  {
    if parts == [] {
    } else {
      var n := |parts| - 1;
      ApplySorted(bs, parts[..n]);
      UpsertSorted(ApplyParts(bs, parts[..n]), parts[n].expireAt, parts[n].amount);
    }
  }

  /** Applying parts moves each book by exactly what the parts say for its date. */
  lemma {:induction false} ApplyBalance(bs: seq<Book>, parts: seq<Part>, d: Date)
    requires Sorted(bs)
    ensures BalanceAt(ApplyParts(bs, parts), d) == BalanceAt(bs, d) + PartsAt(parts, d)
  {
    if parts == [] {
    } else {
      var n := |parts| - 1;
      ApplyBalance(bs, parts[..n], d);
      ApplySorted(bs, parts[..n]);
      UpsertBalance(ApplyParts(bs, parts[..n]), parts[n].expireAt, parts[n].amount, d);
      SumConcat(AmountOn(d), parts[..n], [parts[n]]);
      assert parts == parts[..n] + [parts[n]];
    }
  }

  lemma {:induction false} ApplyTotal(bs: seq<Book>, parts: seq<Part>)
    ensures Total(ApplyParts(bs, parts)) == Total(bs) + PartsTotal(parts)
  {
    if parts == [] {
    } else {
      var n := |parts| - 1;
      ApplyTotal(bs, parts[..n]);
      UpsertSum((b: Book) => b.balance, ApplyParts(bs, parts[..n]), parts[n].expireAt, parts[n].amount,
                parts[n].amount);
      SumConcat((p: Part) => p.amount, parts[..n], [parts[n]]);
      assert parts == parts[..n] + [parts[n]];
    }
  }

  lemma {:induction false} ApplyHas(bs: seq<Book>, parts: seq<Part>, d: Date)
    requires Has(bs, d)
    ensures Has(ApplyParts(bs, parts), d)
  {
    if parts == [] {
    } else {
      var n := |parts| - 1;
      ApplyHas(bs, parts[..n], d);
      UpsertKeeps(ApplyParts(bs, parts[..n]), parts[n].expireAt, parts[n].amount, d);
    }
  }

  function UsableAmount(today: Date): Part -> int {
    (p: Part) => if Usable(p.expireAt, today) then p.amount else 0
  }

  lemma {:induction false} ApplyAvailable(bs: seq<Book>, parts: seq<Part>, today: Date)
    ensures AvailableTotal(ApplyParts(bs, parts), today)
         == AvailableTotal(bs, today) + SumBy(UsableAmount(today), parts)
  {
    if parts == [] {
    } else {
      var n := |parts| - 1;
      var p := parts[n];
      ApplyAvailable(bs, parts[..n], today);
      UpsertSum((b: Book) => if Usable(b.expireAt, today) then b.balance else 0, ApplyParts(bs, parts[..n]),
                p.expireAt, p.amount, if Usable(p.expireAt, today) then p.amount else 0);
      SumConcat(UsableAmount(today), parts[..n], [p]);
      assert parts == parts[..n] + [p];
    }
  }

  // ---------- parts in expiry order ----------

  /** In a sorted list a date is touched by at most one part. */
  lemma {:induction false} PartsAtMember(parts: seq<Part>, i: nat)
    requires PartsSorted(parts) && i < |parts|
    ensures PartsAt(parts, parts[i].expireAt) == parts[i].amount
  {
    var d := parts[i].expireAt;
    if i == 0 {
      forall p | p in parts[1..]
        ensures AmountOn(d)(p) == 0
      {
        var j :| 0 <= j < |parts[1..]| && parts[1..][j] == p;
        assert Before(parts[0].expireAt, parts[j + 1].expireAt);
      }
      SumZero(AmountOn(d), parts[1..]);
    } else {
      assert Before(parts[0].expireAt, parts[i].expireAt);
      PartsAtMember(parts[1..], i - 1);
    }
  }

  lemma PartsAtAbsent(parts: seq<Part>, d: Date)
    requires forall p | p in parts :: p.expireAt != d
    ensures PartsAt(parts, d) == 0
  {
    SumZero(AmountOn(d), parts);
  }

  lemma {:induction false} PartsAtNonNegative(parts: seq<Part>, d: Date)
    requires forall p | p in parts :: p.amount > 0
    ensures PartsAt(parts, d) >= 0
    ensures PartsAt(parts, d) == 0 <==> forall p | p in parts :: p.expireAt != d
  {
    if parts == [] {
    } else {
      PartsAtNonNegative(parts[1..], d);
      assert forall p | p in parts :: p == parts[0] || p in parts[1..];
      assert parts[0] in parts;
    }
  }
}
