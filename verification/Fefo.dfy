/** Debiting books "first expiring, first out": the allocation loop of applyAccountDebitTx,
    what it does to the books, and why no other allocation wastes less. */
module Fefo {
  import opened Domain
  import opened Collections
  import opened Books

  function Min(a: int, b: int): int {
    if a < b then a else b
  }

  function Identity(x: int): int { x }

  /** The debits taken from `books`, in order, to collect `left`; the no-expire book takes
      whatever is still missing, even below zero. */
  function Draw(books: seq<Book>, left: int): seq<Part>
    requires left >= 0
  {
    if left == 0 || books == [] then []
    else
      var b := books[0];
      if b.expireAt == NO_EXPIRE then [Part(NO_EXPIRE, -left)]
      else if b.balance <= 0 then Draw(books[1..], left)
      else
        var use := Min(b.balance, left);
        [Part(b.expireAt, -use)] + Draw(books[1..], left - use)
  }

  /** What is still missing once every book has been tried. */
  function Missing(books: seq<Book>, left: int): nat
    requires left >= 0
  {
    if left == 0 || books == [] then left
    else
      var b := books[0];
      if b.expireAt == NO_EXPIRE then 0
      else if b.balance <= 0 then Missing(books[1..], left)
      else Missing(books[1..], left - Min(b.balance, left))
  }

  /** Every change starts from the balance its book is listed with. */
  ghost predicate PlannedFrom(changes: seq<Planned>, books: seq<Book>) {
    forall c | c in changes :: Book(c.expireAt, c.before) in books && c.after == c.before + c.delta
  }

  /** The allocation loop of applyAccountDebitTx. */
  method DrawLoop(books: seq<Book>, amount: int) returns (changes: seq<Planned>, left: int)
    requires amount >= 0
    ensures PartsOf(changes) == Draw(books, amount) && PlannedFrom(changes, books)
    ensures left == Missing(books, amount)
  {
    left := amount;
    changes := [];
    var i := 0;
    while i < |books|
      invariant 0 <= i <= |books| && left >= 0
      invariant PartsOf(changes) + Draw(books[i..], left) == Draw(books, amount)
      invariant Missing(books[i..], left) == Missing(books, amount)
      invariant PlannedFrom(changes, books)
    {
      if left == 0 {
        break;
      }
      var book := books[i];
      var isNoExpire := book.expireAt == NO_EXPIRE;
      assert books[i..][1..] == books[i + 1..];
      if isNoExpire || book.balance > 0 {
        var delta, after := 0, book.balance;
        if isNoExpire {
          delta := -left;
          after := book.balance - left;
          left := 0;
        } else {
          var use := book.balance;
          if use > left {
            use := left;
          }
          delta := -use;
          after := book.balance - use;
          left := left - use;
        }
        var change := Planned(book.expireAt, delta, book.balance, after);
        assert PartsOf(changes + [change]) == PartsOf(changes) + [Part(book.expireAt, delta)];
        changes := changes + [change];
      }
      i := i + 1;
    }
  }

  // ---------- what the listing of available books looks like ----------

  /** The listing the loop runs over: dated books with money, then the no-expire book. */
  ghost predicate Shelf(av: seq<Book>) {
    && Sorted(av)
    && |av| > 0
    && av[|av| - 1].expireAt == NO_EXPIRE
    && forall i | 0 <= i < |av| - 1 :: av[i].balance > 0
  }

  lemma ShelfOfOne(av: seq<Book>)
    requires Shelf(av) && av[0].expireAt == NO_EXPIRE
    ensures |av| == 1
  {
    assert !Before(av[0].expireAt, av[|av| - 1].expireAt);
  }

  lemma {:induction false} AvailableSorted(bs: seq<Book>, today: Date)
    requires Sorted(bs)
    ensures Sorted(Available(bs, today))
  {
    if bs == [] {
    } else {
      var rest := Available(bs[1..], today);
      AvailableSorted(bs[1..], today);
      forall j | 0 <= j < |rest|
        ensures Before(bs[0].expireAt, rest[j].expireAt)
      {
        FilterMember((b: Book) => (b.expireAt > today && b.balance > 0) || b.expireAt == NO_EXPIRE, bs[1..], rest[j]);
        var k :| 0 <= k < |bs[1..]| && bs[1..][k] == rest[j];
        assert Before(bs[0].expireAt, bs[k + 1].expireAt);
      }
    }
  }

  lemma {:induction false} AvailableSum(bs: seq<Book>, today: Date)
    requires forall b | b in bs :: b.expireAt != NO_EXPIRE ==> b.balance >= 0
    ensures Total(Available(bs, today)) == AvailableTotal(bs, today)
  {
    if bs == [] {
    } else {
      AvailableSum(bs[1..], today);
      var keep := if (bs[0].expireAt > today && bs[0].balance > 0) || bs[0].expireAt == NO_EXPIRE then [bs[0]] else [];
      SumConcat((b: Book) => b.balance, keep, Available(bs[1..], today));
    }
  }

  lemma DatedMembers(bs: seq<Book>)
    requires Sorted(bs) && DatedNonNegative(bs)
    ensures forall b | b in bs :: b.expireAt != NO_EXPIRE ==> b.balance >= 0
  {
    forall b | b in bs && b.expireAt != NO_EXPIRE
      ensures b.balance >= 0
    {
      BalanceAtMember(bs, b);
      assert BalanceAt(bs, b.expireAt) >= 0;
    }
  }

  lemma AvailableIsShelf(bs: seq<Book>, today: Date)
    requires Sorted(bs) && Has(bs, NO_EXPIRE) && DatedNonNegative(bs)
    ensures Shelf(Available(bs, today))
    ensures Total(Available(bs, today)) == AvailableTotal(bs, today)
    ensures forall b | b in Available(bs, today) :: b in bs && Usable(b.expireAt, today)
  {
    var p := (b: Book) => (b.expireAt > today && b.balance > 0) || b.expireAt == NO_EXPIRE;
    var av := Available(bs, today);
    DatedMembers(bs);
    AvailableSorted(bs, today);
    AvailableSum(bs, today);
    forall b | b in av
      ensures b in bs && Usable(b.expireAt, today) && p(b)
    {
      FilterMember(p, bs, b);
    }
    var b :| b in bs && b.expireAt == NO_EXPIRE;
    FilterMember(p, bs, b);
    var k :| 0 <= k < |av| && av[k] == b;
    assert !Before(av[k].expireAt, av[|av| - 1].expireAt);
    forall i | 0 <= i < |av| - 1
      ensures av[i].balance > 0
    {
      assert av[i] in av;
      assert Before(av[i].expireAt, av[|av| - 1].expireAt);
    }
  }

  // ---------- what the loop takes ----------

  lemma {:induction false} DrawCollects(av: seq<Book>, amount: int)
    requires Shelf(av) && amount >= 0
    ensures Missing(av, amount) == 0
    ensures PartsTotal(Draw(av, amount)) == -amount
    ensures amount > 0 ==> Draw(av, amount) != []
  {
    if amount != 0 && av[0].expireAt != NO_EXPIRE {
      assert |av| > 1;
      var use := Min(av[0].balance, amount);
      var rest := Draw(av[1..], amount - use);
      DrawCollects(av[1..], amount - use);
      assert ([Part(av[0].expireAt, -use)] + rest)[1..] == rest;
    } else if amount != 0 {
      SumOne((p: Part) => p.amount, Part(NO_EXPIRE, -amount));
    }
  }

  lemma {:induction false} DrawMember(av: seq<Book>, amount: int, p: Part)
    requires Shelf(av) && amount >= 0 && p in Draw(av, amount)
    ensures p.amount < 0
    ensures exists b | b in av :: b.expireAt == p.expireAt && (p.expireAt != NO_EXPIRE ==> -p.amount <= b.balance)
  {
    if av[0].expireAt == NO_EXPIRE {
      assert av[0] in av;
    } else {
      var use := Min(av[0].balance, amount);
      if p == Part(av[0].expireAt, -use) {
        assert av[0] in av;
      } else {
        DrawMember(av[1..], amount - use, p);
        var b :| b in av[1..] && b.expireAt == p.expireAt && (p.expireAt != NO_EXPIRE ==> -p.amount <= b.balance);
        assert b in av;
      }
    }
  }

  lemma {:induction false} DrawSorted(av: seq<Book>, amount: int)
    requires Shelf(av) && amount >= 0
    ensures PartsSorted(Draw(av, amount))
  {
    if amount != 0 && av[0].expireAt != NO_EXPIRE {
      var use := Min(av[0].balance, amount);
      var rest := Draw(av[1..], amount - use);
      DrawSorted(av[1..], amount - use);
      forall j | 0 <= j < |rest|
        ensures Before(av[0].expireAt, rest[j].expireAt)
      {
        DrawMember(av[1..], amount - use, rest[j]);
        var b :| b in av[1..] && b.expireAt == rest[j].expireAt;
        var k :| 0 <= k < |av[1..]| && av[1..][k] == b;
        assert Before(av[0].expireAt, av[k + 1].expireAt);
      }
    }
  }

  /** The no-expire book is touched only after every dated book has been emptied, so what it
      holds afterwards is the whole remaining available balance. */
  lemma {:induction false} DrawFromNoExpire(av: seq<Book>, amount: int)
    requires Shelf(av) && amount >= 0
    ensures PartsAt(Draw(av, amount), NO_EXPIRE) == 0
         || av[|av| - 1].balance + PartsAt(Draw(av, amount), NO_EXPIRE) == Total(av) - amount
  {
    if amount != 0 {
      if av[0].expireAt == NO_EXPIRE {
        ShelfOfOne(av);
        assert Draw(av, amount) == [Part(NO_EXPIRE, -amount)];
        SumOne(AmountOn(NO_EXPIRE), Part(NO_EXPIRE, -amount));
        SumOne((b: Book) => b.balance, av[0]);
        assert av == [av[0]];
      } else {
        var use := Min(av[0].balance, amount);
        var rest := Draw(av[1..], amount - use);
        DrawFromNoExpire(av[1..], amount - use);
        assert ([Part(av[0].expireAt, -use)] + rest)[1..] == rest;
        if use < av[0].balance {
          assert rest == [];
        }
      }
    }
  }

  /** The debit as the account sees it: from any set of books whose dated balances are not
      negative, the loop collects exactly `amount`, touches only unexpired books, never takes a
      dated book below zero, and leaves the no-expire book at or above both bounds. */
  lemma DrawOnBooks(bs: seq<Book>, today: Date, amount: int)
    requires Sorted(bs) && Has(bs, NO_EXPIRE) && DatedNonNegative(bs) && amount > 0
    ensures var av := Available(bs, today);
            var parts := Draw(av, amount);
            && Missing(av, amount) == 0
            && PartsTotal(parts) == -amount
            && parts != [] && PartsSorted(parts)
            && (forall p | p in parts :: p.amount < 0 && Usable(p.expireAt, today) && Has(bs, p.expireAt))
            && SumBy(UsableAmount(today), parts) == -amount
    ensures DatedNonNegative(ApplyParts(bs, Draw(Available(bs, today), amount)))
    ensures var after := BalanceAt(ApplyParts(bs, Draw(Available(bs, today), amount)), NO_EXPIRE);
            after == BalanceAt(bs, NO_EXPIRE) || after == AvailableTotal(bs, today) - amount
  {
    var av := Available(bs, today);
    var parts := Draw(av, amount);
    AvailableIsShelf(bs, today);
    DrawCollects(av, amount);
    DrawSorted(av, amount);
    forall p | p in parts
      ensures p.amount < 0 && Usable(p.expireAt, today) && Has(bs, p.expireAt)
      ensures p.expireAt != NO_EXPIRE ==> -p.amount <= BalanceAt(bs, p.expireAt)
    {
      DrawMember(av, amount, p);
      var b :| b in av && b.expireAt == p.expireAt && (p.expireAt != NO_EXPIRE ==> -p.amount <= b.balance);
      BalanceAtMember(bs, b);
    }
    SumSame(UsableAmount(today), (p: Part) => p.amount, parts);
    forall d: Date
      ensures d != NO_EXPIRE ==> BalanceAt(ApplyParts(bs, parts), d) >= 0
    {
      ApplyBalance(bs, parts, d);
      assert d != NO_EXPIRE ==> BalanceAt(bs, d) >= 0;
      if i :| 0 <= i < |parts| && parts[i].expireAt == d {
        PartsAtMember(parts, i);
      } else {
        PartsAtAbsent(parts, d);
      }
    }
    ApplyBalance(bs, parts, NO_EXPIRE);
    DrawFromNoExpire(av, amount);
    BalanceAtMember(bs, av[|av| - 1]);
  }

  // ---------- sweeping expired books ----------

  /** The write-off entries of sweepExpiredBooksTx. */
  function SweepParts(bs: seq<Book>, today: Date): seq<Part> {
    var ex := Expired(bs, today);
    seq(|ex|, i requires 0 <= i < |ex| => Part(ex[i].expireAt, -ex[i].balance))
  }

  lemma {:induction false} ExpiredSorted(bs: seq<Book>, today: Date)
    requires Sorted(bs)
    ensures Sorted(Expired(bs, today))
  {
    if bs == [] {
    } else {
      var rest := Expired(bs[1..], today);
      ExpiredSorted(bs[1..], today);
      forall j | 0 <= j < |rest|
        ensures Before(bs[0].expireAt, rest[j].expireAt)
      {
        FilterMember((b: Book) => !Usable(b.expireAt, today) && b.balance > 0, bs[1..], rest[j]);
        var k :| 0 <= k < |bs[1..]| && bs[1..][k] == rest[j];
        assert Before(bs[0].expireAt, bs[k + 1].expireAt);
      }
    }
  }

  lemma {:induction false} SweepTotal(ex: seq<Book>, parts: seq<Part>)
    requires |parts| == |ex|
    requires forall i | 0 <= i < |ex| :: parts[i] == Part(ex[i].expireAt, -ex[i].balance)
    requires forall b | b in ex :: b.balance > 0
    ensures PartsTotal(parts) == -Total(ex)
    ensures Total(ex) >= |ex|
  {
    if ex == [] {
    } else {
      assert ex[0] in ex;
      SweepTotal(ex[1..], parts[1..]);
    }
  }

  lemma {:induction false} ExpiredMembers(bs: seq<Book>, today: Date)
    ensures forall b | b in Expired(bs, today) :: b in bs && !Usable(b.expireAt, today) && b.balance > 0
  {
    forall b | b in Expired(bs, today)
      ensures b in bs && !Usable(b.expireAt, today) && b.balance > 0
    {
      FilterMember((b: Book) => !Usable(b.expireAt, today) && b.balance > 0, bs, b);
    }
  }

  /** The entries of a sweep: in expiry order, each taking the whole of an expired book. */
  lemma {:induction false} SweepEntries(bs: seq<Book>, today: Date)
    requires Sorted(bs)
    ensures var parts := SweepParts(bs, today);
            && PartsSorted(parts)
            && PartsTotal(parts) == -Total(Expired(bs, today))
            && (forall p | p in parts :: p.amount < 0 && !Usable(p.expireAt, today) && Has(bs, p.expireAt))
    ensures Total(Expired(bs, today)) >= |Expired(bs, today)|
  {
    var ex, parts := Expired(bs, today), SweepParts(bs, today);
    ExpiredSorted(bs, today);
    ExpiredMembers(bs, today);
    SweepTotal(ex, parts);
    forall q | q in parts
      ensures q.amount < 0 && !Usable(q.expireAt, today) && Has(bs, q.expireAt)
    {
      var i :| 0 <= i < |parts| && parts[i] == q;
      assert ex[i] in ex;
    }
  }

  lemma {:induction false} SweptBalance(bs: seq<Book>, today: Date, d: Date)
    requires Sorted(bs) && DatedNonNegative(bs)
    ensures BalanceAt(ApplyParts(bs, SweepParts(bs, today)), d) == if Usable(d, today) then BalanceAt(bs, d) else 0
  {
    var ex, parts := Expired(bs, today), SweepParts(bs, today);
    SweepEntries(bs, today);
    ExpiredMembers(bs, today);
    ApplyBalance(bs, parts, d);
    if i :| 0 <= i < |parts| && parts[i].expireAt == d {
      PartsAtMember(parts, i);
      assert ex[i] in ex;
      BalanceAtMember(bs, ex[i]);
    } else {
      PartsAtAbsent(parts, d);
      if !Usable(d, today) {
        assert forall b | b in ex :: b.expireAt != d by {
          forall b | b in ex
            ensures b.expireAt != d
          {
            var i :| 0 <= i < |ex| && ex[i] == b;
            assert parts[i].expireAt == b.expireAt;
          }
        }
        NothingExpiredAt(bs, today, d);
      }
    }
  }

  /** Sweeping empties every expired book and no other, so it leaves the available balance as it
      was; afterwards the available balance is all the account has. */
  lemma {:induction false} SweepOnBooks(bs: seq<Book>, today: Date)
    requires Sorted(bs) && DatedNonNegative(bs)
    ensures var parts := SweepParts(bs, today);
            && PartsSorted(parts)
            && PartsTotal(parts) == -Total(Expired(bs, today))
            && (forall p | p in parts :: p.amount < 0 && !Usable(p.expireAt, today) && Has(bs, p.expireAt))
    ensures Total(Expired(bs, today)) >= 0
    ensures Expired(bs, today) != [] ==> Total(Expired(bs, today)) > 0
    ensures var swept := ApplyParts(bs, SweepParts(bs, today));
            && AvailableTotal(swept, today) == AvailableTotal(bs, today)
            && (forall d: Date :: BalanceAt(swept, d) == if Usable(d, today) then BalanceAt(bs, d) else 0)
            && DatedNonNegative(swept)
  {
    var parts := SweepParts(bs, today);
    SweepEntries(bs, today);
    ApplyAvailable(bs, parts, today);
    SumZero(UsableAmount(today), parts);
    forall d: Date
      ensures BalanceAt(ApplyParts(bs, parts), d) == if Usable(d, today) then BalanceAt(bs, d) else 0
    {
      SweptBalance(bs, today, d);
    }
  }

  lemma {:induction false} NothingExpiredAt(bs: seq<Book>, today: Date, d: Date)
    requires Sorted(bs) && DatedNonNegative(bs) && !Usable(d, today)
    requires forall b | b in Expired(bs, today) :: b.expireAt != d
    ensures BalanceAt(bs, d) == 0
  {
    if b :| b in bs && b.expireAt == d {
      BalanceAtMember(bs, b);
      FilterMember((b: Book) => !Usable(b.expireAt, today) && b.balance > 0, bs, b);
      assert BalanceAt(bs, d) >= 0;
    } else {
      BalanceAtAbsent(bs, d);
    }
  }

  /** When no expired book holds money, the available balance is the whole balance. */
  lemma {:induction false} AvailableIsAll(bs: seq<Book>, today: Date)
    requires forall b | b in bs :: !Usable(b.expireAt, today) ==> b.balance == 0
    ensures AvailableTotal(bs, today) == Total(bs)
  {
    if bs == [] {
    } else {
      AvailableIsAll(bs[1..], today);
    }
  }

  lemma SweptIsAvailable(bs: seq<Book>, today: Date)
    requires Sorted(bs) && DatedNonNegative(bs)
    ensures Total(ApplyParts(bs, SweepParts(bs, today))) == AvailableTotal(bs, today)
    ensures Total(bs) - Total(Expired(bs, today)) == AvailableTotal(bs, today)
  {
    var swept := ApplyParts(bs, SweepParts(bs, today));
    SweepOnBooks(bs, today);
    ApplySorted(bs, SweepParts(bs, today));
    ApplyTotal(bs, SweepParts(bs, today));
    forall b | b in swept && !Usable(b.expireAt, today)
      ensures b.balance == 0
    {
      BalanceAtMember(swept, b);
    }
    AvailableIsAll(swept, today);
  }

  // ---------- optimality ----------

  /** The date is `d` or earlier; everything is by the date of no expiry. */
  predicate ExpiresBy(e: Date, d: Date) {
    d == NO_EXPIRE || (e != NO_EXPIRE && e <= d)
  }

  function BalanceBy(today: Date, d: Date): Book -> int {
    (b: Book) => if Usable(b.expireAt, today) && ExpiresBy(b.expireAt, d) then b.balance else 0
  }

  function AmountBy(today: Date, d: Date): Part -> int {
    (p: Part) => if Usable(p.expireAt, today) && ExpiresBy(p.expireAt, d) then p.amount else 0
  }

  /** The money that can be used today and expires on or before `d`. */
  function ExpiringBy(bs: seq<Book>, today: Date, d: Date): int {
    SumBy(BalanceBy(today, d), bs)
  }

  /** A way to pay `amount`: debits of usable books, in any order and number, that add up to it and
      take no dated book below zero. */
  ghost predicate Pays(bs: seq<Book>, parts: seq<Part>, today: Date, amount: int) {
    && PartsTotal(parts) == -amount
    && (forall p | p in parts :: p.amount <= 0 && Usable(p.expireAt, today))
    && DatedNonNegative(ApplyParts(bs, parts))
  }

  lemma {:induction false} ApplyExpiring(bs: seq<Book>, parts: seq<Part>, today: Date, d: Date)
    ensures ExpiringBy(ApplyParts(bs, parts), today, d) == ExpiringBy(bs, today, d) + SumBy(AmountBy(today, d), parts)
  {
    if parts == [] {
    } else {
      var n := |parts| - 1;
      var p := parts[n];
      ApplyExpiring(bs, parts[..n], today, d);
      UpsertSum(BalanceBy(today, d), ApplyParts(bs, parts[..n]), p.expireAt, p.amount, AmountBy(today, d)(p));
      SumSnoc(AmountBy(today, d), parts[..n], p);
      assert parts == parts[..n] + [p];
    }
  }

  lemma {:induction false} ExpiringNonNegative(bs: seq<Book>, today: Date, d: Date)
    requires d != NO_EXPIRE && forall b | b in bs :: b.expireAt != NO_EXPIRE ==> b.balance >= 0
    ensures ExpiringBy(bs, today, d) >= 0
  {
    if bs == [] {
    } else {
      ExpiringNonNegative(bs[1..], today, d);
      assert bs[0] in bs;
    }
  }

  lemma {:induction false} LaterBooks(bs: seq<Book>, today: Date, d: Date)
    requires forall b | b in bs :: Before(d, b.expireAt)
    ensures ExpiringBy(bs, today, d) == 0
  {
    SumZero(BalanceBy(today, d), bs);
  }

  lemma {:induction false} AvailableExpiring(bs: seq<Book>, today: Date, d: Date)
    requires forall b | b in bs :: b.expireAt != NO_EXPIRE ==> b.balance >= 0
    ensures ExpiringBy(Available(bs, today), today, d) == ExpiringBy(bs, today, d)
  {
    if bs == [] {
    } else {
      AvailableExpiring(bs[1..], today, d);
      var keep := if (bs[0].expireAt > today && bs[0].balance > 0) || bs[0].expireAt == NO_EXPIRE then [bs[0]] else [];
      SumConcat(BalanceBy(today, d), keep, Available(bs[1..], today));
      assert bs[0] in bs;
    }
  }

  /** Of the money that expires by a date, the loop takes all it needs or all there is. */
  lemma {:induction false} DrawsEarliest(av: seq<Book>, amount: int, today: Date, d: Date)
    requires Shelf(av) && amount >= 0 && d != NO_EXPIRE && forall b | b in av :: Usable(b.expireAt, today)
    ensures SumBy(AmountBy(today, d), Draw(av, amount)) == -Min(ExpiringBy(av, today, d), amount)
  {
    ShelfNonNegative(av);
    ExpiringNonNegative(av, today, d);
    if av[0].expireAt == NO_EXPIRE {
      ShelfOfOne(av);
      LaterBooks(av, today, d);
      SumZero(AmountBy(today, d), Draw(av, amount));
    } else if amount > 0 {
      var use := Min(av[0].balance, amount);
      var rest := Draw(av[1..], amount - use);
      assert ([Part(av[0].expireAt, -use)] + rest)[1..] == rest;
      ShelfNonNegative(av[1..]);
      ExpiringNonNegative(av[1..], today, d);
      DrawsEarliest(av[1..], amount - use, today, d);
      assert av[0] in av;
      if Before(d, av[0].expireAt) {
        ShelfAfter(av, d);
        LaterBooks(av[1..], today, d);
      }
    }
  }

  lemma {:induction false} ShelfNonNegative(av: seq<Book>)
    requires Shelf(av)
    ensures forall b | b in av :: b.expireAt != NO_EXPIRE ==> b.balance >= 0
  {
  }

  lemma {:induction false} ShelfAfter(av: seq<Book>, d: Date)
    requires Shelf(av) && Before(d, av[0].expireAt)
    ensures forall b | b in av :: Before(d, b.expireAt)
  {
  }

  lemma {:induction false} SumAtMost<T>(f: T -> int, g: T -> int, s: seq<T>)
    requires forall x | x in s :: f(x) <= g(x)
    ensures SumBy(f, s) <= SumBy(g, s)
  {
    if s == [] {
    } else {
      SumAtMost(f, g, s[1..]);
      assert s[0] in s;
    }
  }

  /** What is left of the money that expires by a date, however the amount is paid: at least what
      would be left if all of it came from there, and never less than nothing. */
  lemma {:induction false} PaidExpiring(bs: seq<Book>, parts: seq<Part>, today: Date, amount: int, d: Date)
    requires Sorted(bs) && Pays(bs, parts, today, amount)
    ensures var left := ExpiringBy(ApplyParts(bs, parts), today, d);
            && left >= ExpiringBy(bs, today, d) - amount
            && (if d == NO_EXPIRE then left == ExpiringBy(bs, today, d) - amount else left >= 0)
  {
    ApplyExpiring(bs, parts, today, d);
    SumAtMost((p: Part) => p.amount, AmountBy(today, d), parts);
    if d == NO_EXPIRE {
      SumSame(AmountBy(today, d), (p: Part) => p.amount, parts);
    } else {
      ApplySorted(bs, parts);
      DatedMembers(ApplyParts(bs, parts));
      ExpiringNonNegative(ApplyParts(bs, parts), today, d);
    }
  }

  /** The loop's debits are a way to pay, and leave of the money that expires by a date exactly what
      the amount exceeds. */
  lemma {:induction false} DrawPays(bs: seq<Book>, today: Date, amount: int, d: Date)
    requires Sorted(bs) && Has(bs, NO_EXPIRE) && DatedNonNegative(bs) && amount >= 0
    ensures var parts := Draw(Available(bs, today), amount);
            var before := ExpiringBy(bs, today, d);
            && Pays(bs, parts, today, amount)
            && (d != NO_EXPIRE ==>
                  ExpiringBy(ApplyParts(bs, parts), today, d) == if before > amount then before - amount else 0)
  {
    if amount > 0 {
      DrawOnBooks(bs, today, amount);
    }
    if d != NO_EXPIRE {
      AvailableIsShelf(bs, today);
      DatedMembers(bs);
      AvailableExpiring(bs, today, d);
      ExpiringNonNegative(bs, today, d);
      DrawsEarliest(Available(bs, today), amount, today, d);
      ApplyExpiring(bs, Draw(Available(bs, today), amount), today, d);
    }
  }

  /** First expiring, first out is optimal: among all ways to pay, for every date the loop's leaves
      the least money that expires by that date. */
  lemma {:induction false} FefoOptimal(bs: seq<Book>, today: Date, amount: int, parts: seq<Part>, d: Date)
    requires Sorted(bs) && Has(bs, NO_EXPIRE) && DatedNonNegative(bs) && amount >= 0
    requires Pays(bs, parts, today, amount)
    ensures var drawn := Draw(Available(bs, today), amount);
            && Pays(bs, drawn, today, amount)
            && ExpiringBy(ApplyParts(bs, drawn), today, d) <= ExpiringBy(ApplyParts(bs, parts), today, d)
  {
    DrawPays(bs, today, amount, d);
    PaidExpiring(bs, Draw(Available(bs, today), amount), today, amount, d);
    PaidExpiring(bs, parts, today, amount, d);
  }

  /** Sweeping first makes no difference to the ways to pay and to what they leave. */
  lemma {:induction false} SweptPays(bs: seq<Book>, parts: seq<Part>, today: Date, amount: int, d: Date)
    requires Sorted(bs) && DatedNonNegative(bs) && forall p | p in parts :: Usable(p.expireAt, today)
    ensures var swept := ApplyParts(bs, SweepParts(bs, today));
            && (Pays(swept, parts, today, amount) <==> Pays(bs, parts, today, amount))
            && ExpiringBy(ApplyParts(swept, parts), today, d) == ExpiringBy(ApplyParts(bs, parts), today, d)
  {
    var swept := ApplyParts(bs, SweepParts(bs, today));
    SweepOnBooks(bs, today);
    ApplySorted(bs, SweepParts(bs, today));
    ApplyExpiring(bs, SweepParts(bs, today), today, d);
    SumZero(AmountBy(today, d), SweepParts(bs, today));
    ApplyExpiring(swept, parts, today, d);
    ApplyExpiring(bs, parts, today, d);
    forall e: Date | e != NO_EXPIRE
      ensures BalanceAt(ApplyParts(swept, parts), e) >= 0 <==> BalanceAt(ApplyParts(bs, parts), e) >= 0
    {
      ApplyBalance(swept, parts, e);
      ApplyBalance(bs, parts, e);
      assert BalanceAt(swept, e) == if Usable(e, today) then BalanceAt(bs, e) else 0;
      if !Usable(e, today) {
        PartsAtAbsent(parts, e);
        assert BalanceAt(bs, e) >= 0;
      }
    }
  }

  /** A debit that sweeps first is as good as any way to pay from the books as they were. */
  lemma {:induction false} FefoSwept(bs: seq<Book>, today: Date, amount: int, parts: seq<Part>, d: Date)
    requires Sorted(bs) && Has(bs, NO_EXPIRE) && DatedNonNegative(bs) && amount >= 0
    requires Pays(bs, parts, today, amount)
    ensures var swept := ApplyParts(bs, SweepParts(bs, today));
            var drawn := Draw(Available(swept, today), amount);
            var left := ExpiringBy(ApplyParts(swept, drawn), today, d);
            && Pays(bs, drawn, today, amount) && left == ExpiringBy(ApplyParts(bs, drawn), today, d)
            && left <= ExpiringBy(ApplyParts(bs, parts), today, d)
  {
    var swept := ApplyParts(bs, SweepParts(bs, today));
    SweepOnBooks(bs, today);
    ApplySorted(bs, SweepParts(bs, today));
    ApplyHas(bs, SweepParts(bs, today), NO_EXPIRE);
    SweptPays(bs, parts, today, amount, d);
    FefoOptimal(swept, today, amount, parts, d);
    SweptPays(bs, Draw(Available(swept, today), amount), today, amount, d);
  }
}
