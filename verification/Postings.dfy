/** One posting keeps everything that concerns accounts, books and logs. */
module Postings {
  import opened Domain
  import opened Collections
  import opened Books
  import opened Fefo
  import opened Refunds
  import opened Ledger
  import opened Invariants

  /** A posting that leaves its account consistent and above its floor. */
  ghost predicate PostingOk(acc: Account, bs: seq<Book>, delta: int, parts: seq<Part>) {
    && DistinctDates(parts)
    && (if acc.bookEnabled then PartsTotal(parts) == delta else parts == [])
    && AccountOk(acc.(balance := acc.balance + delta), ApplyParts(bs, parts))
  }

  // ---------- the account log ----------

  lemma {:induction false} LastAfterSnoc(log: seq<AccountChange>, e: AccountChange, a: AccountNo)
    ensures LastAfter(log + [e], a) == if e.account == a then e.after else LastAfter(log, a)
  {
    assert (log + [e])[..|log|] == log;
  }

  lemma {:induction false} AccountLogPost(accounts: map<AccountNo, Account>, log: seq<AccountChange>, e: AccountChange)
    requires AccountLogOk(accounts, log)
    requires e.account in accounts && e.before == accounts[e.account].balance && e.after == e.before + e.delta
    ensures AccountLogOk(accounts[e.account := accounts[e.account].(balance := e.after)], log + [e])
  {
    var accounts1 := accounts[e.account := accounts[e.account].(balance := e.after)];
    assert (log + [e])[..|log|] == log;
    assert LogEnds(accounts, log, e.account);
    forall a: AccountNo
      ensures LogEnds(accounts1, log + [e], a)
    {
      assert LogEnds(accounts, log, a);
      LastAfterSnoc(log, e, a);
    }
  }

  // ---------- the book log ----------

  lemma {:induction false} LastBookAfterSnoc(log: seq<BookChange>, c: BookChange, a: AccountNo, d: Date)
    ensures LastBookAfter(log + [c], a, d)
         == if c.account == a && c.expireAt == d then c.after else LastBookAfter(log, a, d)
  {
    assert (log + [c])[..|log|] == log;
  }

  lemma {:induction false} BooksChainedSnoc(log: seq<BookChange>, c: BookChange)
    requires BooksChained(log)
    requires c.before == LastBookAfter(log, c.account, c.expireAt) && c.after == c.before + c.delta
    ensures BooksChained(log + [c])
  {
    assert (log + [c])[..|log|] == log;
  }

  lemma {:induction false} PartChangesSnoc(t: TxnNo, a: AccountNo, bs: seq<Book>, parts: seq<Part>, day: Date)
    requires parts != []
    ensures var n := |parts| - 1;
            var b := BalanceAt(bs, parts[n].expireAt);
            var last := BookChange(t, a, parts[n].expireAt, parts[n].amount, b, b + parts[n].amount, day);
            PartChanges(t, a, bs, parts, day) == PartChanges(t, a, bs, parts[..n], day) + [last]
  {
  }

  /** After logging the parts, the log ends at the new balance of every book of `a`. */
  lemma {:induction false} PartChangesEnd(log: seq<BookChange>, t: TxnNo, a: AccountNo, bs: seq<Book>,
                                          parts: seq<Part>, day: Date,
                                          b: AccountNo, d: Date)
    requires Sorted(bs) && DistinctDates(parts)
    requires LastBookAfter(log, a, d) == BalanceAt(bs, d)
    ensures LastBookAfter(log + PartChanges(t, a, bs, parts, day), b, d)
         == if b == a then BalanceAt(ApplyParts(bs, parts), d) else LastBookAfter(log, b, d)
    decreases |parts|
  {
    if parts == [] {
      assert log + PartChanges(t, a, bs, parts, day) == log;
    } else {
      var n := |parts| - 1;
      var p := parts[n];
      var log1 := log + PartChanges(t, a, bs, parts[..n], day);
      var balance := BalanceAt(bs, p.expireAt);
      var c := BookChange(t, a, p.expireAt, p.amount, balance, balance + p.amount, day);
      PartChangesSnoc(t, a, bs, parts, day);
      assert log + PartChanges(t, a, bs, parts, day) == log1 + [c];
      PartChangesEnd(log, t, a, bs, parts[..n], day, b, d);
      LastBookAfterSnoc(log1, c, b, d);
      ApplySorted(bs, parts[..n]);
      UpsertBalance(ApplyParts(bs, parts[..n]), p.expireAt, p.amount, d);
      ApplyBalance(bs, parts[..n], p.expireAt);
      PartsAtAbsent(parts[..n], p.expireAt);
    }
  }

  /** Logging the parts one by one keeps the book log a chain. */
  lemma {:induction false} PartChangesChain(log: seq<BookChange>, t: TxnNo, a: AccountNo, bs: seq<Book>,
                                            parts: seq<Part>, day: Date)
    requires BooksChained(log) && Sorted(bs) && DistinctDates(parts)
    requires forall d: Date :: LastBookAfter(log, a, d) == BalanceAt(bs, d)
    ensures BooksChained(log + PartChanges(t, a, bs, parts, day))
    decreases |parts|
  {
    if parts == [] {
      assert log + PartChanges(t, a, bs, parts, day) == log;
    } else {
      var n := |parts| - 1;
      var p := parts[n];
      var log1 := log + PartChanges(t, a, bs, parts[..n], day);
      var balance := BalanceAt(bs, p.expireAt);
      var c := BookChange(t, a, p.expireAt, p.amount, balance, balance + p.amount, day);
      PartChangesSnoc(t, a, bs, parts, day);
      assert log + PartChanges(t, a, bs, parts, day) == log1 + [c];
      PartChangesChain(log, t, a, bs, parts[..n], day);
      PartChangesEnd(log, t, a, bs, parts[..n], day, a, p.expireAt);
      ApplyBalance(bs, parts[..n], p.expireAt);
      PartsAtAbsent(parts[..n], p.expireAt);
      BooksChainedSnoc(log1, c);
    }
  }

  lemma {:induction false} BookLogPost(books: map<AccountNo, seq<Book>>, log: seq<BookChange>, t: TxnNo, a: AccountNo,
                                       parts: seq<Part>, day: Date)
    requires BookLogOk(books, log) && a in books && Sorted(books[a]) && DistinctDates(parts)
    ensures BookLogOk(books[a := ApplyParts(books[a], parts)], log + PartChanges(t, a, books[a], parts, day))
  {
    var books1 := books[a := ApplyParts(books[a], parts)];
    var log1 := log + PartChanges(t, a, books[a], parts, day);
    forall d: Date
      ensures LastBookAfter(log, a, d) == BalanceAt(books[a], d)
    {
      assert BookLogEnds(books, log, a, d);
    }
    PartChangesChain(log, t, a, books[a], parts, day);
    forall b: AccountNo, d: Date
      ensures BookLogEnds(books1, log1, b, d)
    {
      assert BookLogEnds(books, log, a, d) && BookLogEnds(books, log, b, d);
      PartChangesEnd(log, t, a, books[a], parts, day, b, d);
    }
  }

  // ---------- deltas ----------

  lemma {:induction false} PartChangesDelta(t: TxnNo, a: AccountNo, bs: seq<Book>, parts: seq<Part>, day: Date,
                                            u: TxnNo, b: AccountNo)
    ensures SumBy(BookDelta(u, b), PartChanges(t, a, bs, parts, day))
         == if u == t && b == a then PartsTotal(parts) else 0
    decreases |parts|
  {
    if parts == [] {
    } else {
      var n := |parts| - 1;
      var changes := PartChanges(t, a, bs, parts, day);
      PartChangesDelta(t, a, bs, parts[..n], day, u, b);
      assert changes[..n] == PartChanges(t, a, bs, parts[..n], day);
      assert changes == changes[..n] + [changes[n]] && parts == parts[..n] + [parts[n]];
      SumSnoc(BookDelta(u, b), changes[..n], changes[n]);
      SumSnoc((p: Part) => p.amount, parts[..n], parts[n]);
    }
  }

  /** The accounts are the same but for their balances. */
  ghost predicate SameAccounts(accounts: map<AccountNo, Account>, accounts1: map<AccountNo, Account>) {
    && accounts1.Keys == accounts.Keys
    && forall a | a in accounts :: accounts1[a] == accounts[a].(balance := accounts1[a].balance)
  }

  lemma {:induction false} DeltasPost(accounts: map<AccountNo, Account>, accounts1: map<AccountNo, Account>,
                   log: seq<AccountChange>, bookLog: seq<BookChange>, e: AccountChange,
                   bs: seq<Book>, parts: seq<Part>, day: Date)
    requires DeltasOk(accounts, log, bookLog) && SameAccounts(accounts, accounts1)
    requires e.account in accounts
    requires if IsBook(accounts, e.account) then PartsTotal(parts) == e.delta else parts == []
    ensures DeltasOk(accounts1, log + [e], bookLog + PartChanges(e.txn, e.account, bs, parts, day))
  {
    var changes := PartChanges(e.txn, e.account, bs, parts, day);
    forall u: TxnNo, b: AccountNo | IsBook(accounts1, b)
      ensures DeltasAgree(log + [e], bookLog + changes, u, b)
    {
      assert IsBook(accounts, b);
      assert DeltasAgree(log, bookLog, u, b);
      SumConcat(BookDelta(u, b), bookLog, changes);
      PartChangesDelta(e.txn, e.account, bs, parts, day, u, b);
      SumSnoc(AccountDelta(u, b), log, e);
    }
    forall f | f in log + [e]
      ensures Known(accounts1, f.account)
    {
      assert f == e || Known(accounts, f.account);
    }
    forall c | c in bookLog + changes
      ensures IsBook(accounts1, c.account)
    {
      if c in bookLog {
        assert IsBook(accounts, c.account);
      } else {
        assert c in changes;
      }
    }
  }

  // ---------- all of it ----------

  lemma {:induction false} PostMoney(merchants: map<MerchantNo, AccountNo>, accounts: map<AccountNo, Account>,
                                     books: map<AccountNo, seq<Book>>,
                                     log: seq<AccountChange>, bookLog: seq<BookChange>,
                                     t: TxnNo, a: AccountNo, delta: int, parts: seq<Part>, day: Date)
    requires MoneyInv(merchants, accounts, books, log, bookLog) && a in accounts && a in books
    requires PostingOk(accounts[a], books[a], delta, parts)
    ensures var acc := accounts[a];
            MoneyInv(merchants, accounts[a := acc.(balance := acc.balance + delta)],
                     books[a := ApplyParts(books[a], parts)],
                     log + [AccountChange(t, a, delta, acc.balance, acc.balance + delta)],
                     bookLog + PartChanges(t, a, books[a], parts, day))
  {
    var acc := accounts[a];
    var e := AccountChange(t, a, delta, acc.balance, acc.balance + delta);
    var accounts1 := accounts[a := acc.(balance := acc.balance + delta)];
    BooksSorted(accounts, books, a);
    PostLogs(accounts, accounts1, books, log, bookLog, e, parts, day);
    WriteoffsSame(merchants, accounts, accounts1);
    AccountsPost(accounts, books, a, delta, parts);
  }

  lemma {:induction false} PostLogs(accounts: map<AccountNo, Account>, accounts1: map<AccountNo, Account>,
                                    books: map<AccountNo, seq<Book>>,
                                    log: seq<AccountChange>, bookLog: seq<BookChange>, e: AccountChange,
                                    parts: seq<Part>, day: Date)
    requires AccountLogOk(accounts, log) && BookLogOk(books, bookLog) && DeltasOk(accounts, log, bookLog)
    requires e.account in accounts && e.account in books && e.before == accounts[e.account].balance
    requires e.after == e.before + e.delta
    requires accounts1 == accounts[e.account := accounts[e.account].(balance := e.after)]
    requires Sorted(books[e.account]) && DistinctDates(parts)
    requires if accounts[e.account].bookEnabled then PartsTotal(parts) == e.delta else parts == []
    ensures AccountLogOk(accounts1, log + [e])
    ensures var a := e.account;
            BookLogOk(books[a := ApplyParts(books[a], parts)], bookLog + PartChanges(e.txn, a, books[a], parts, day))
    ensures DeltasOk(accounts1, log + [e], bookLog + PartChanges(e.txn, e.account, books[e.account], parts, day))
  {
    AccountLogPost(accounts, log, e);
    BookLogPost(books, bookLog, e.txn, e.account, parts, day);
    DeltasPost(accounts, accounts1, log, bookLog, e, books[e.account], parts, day);
  }

  lemma {:induction false} BooksSorted(accounts: map<AccountNo, Account>, books: map<AccountNo, seq<Book>>,
                                       a: AccountNo)
    requires AccountsOk(accounts, books) && a in accounts
    ensures Sorted(books[a])
  {
    assert AccountOk(accounts[a], books[a]);
  }

  lemma {:induction false} AccountsPost(accounts: map<AccountNo, Account>, books: map<AccountNo, seq<Book>>,
                                        a: AccountNo, delta: int, parts: seq<Part>)
    requires AccountsOk(accounts, books) && a in accounts
    requires PostingOk(accounts[a], books[a], delta, parts)
    ensures AccountsOk(accounts[a := accounts[a].(balance := accounts[a].balance + delta)],
                       books[a := ApplyParts(books[a], parts)])
  {
    var accounts1 := accounts[a := accounts[a].(balance := accounts[a].balance + delta)];
    var books1 := books[a := ApplyParts(books[a], parts)];
    forall b | b in accounts1
      ensures AccountOk(accounts1[b], books1[b])
    {
      if b != a {
        assert AccountOk(accounts[b], books[b]);
      }
    }
  }

  lemma {:induction false} WriteoffsSame(merchants: map<MerchantNo, AccountNo>, accounts: map<AccountNo, Account>,
                                         accounts1: map<AccountNo, Account>)
    requires WriteoffsOk(merchants, accounts) && SameAccounts(accounts, accounts1)
    ensures WriteoffsOk(merchants, accounts1)
  {
    forall m | m in merchants
      ensures WriteoffOk(accounts1, m, merchants[m])
    {
      assert WriteoffOk(accounts, m, merchants[m]);
    }
  }

  // ---------- which postings are good ----------

  lemma {:induction false} CreditPostingOk(acc: Account, bs: seq<Book>, amount: int, parts: seq<Part>)
    requires AccountOk(acc, bs) && amount > 0
    requires DistinctDates(parts) && Positive(parts)
    requires if acc.bookEnabled then PartsTotal(parts) == amount else parts == []
    ensures PostingOk(acc, bs, amount, parts)
  {
    ApplySorted(bs, parts);
    ApplyTotal(bs, parts);
    if acc.bookEnabled {
      ApplyHas(bs, parts, NO_EXPIRE);
      forall d: Date
        ensures BalanceAt(ApplyParts(bs, parts), d) >= BalanceAt(bs, d)
      {
        ApplyBalance(bs, parts, d);
        PartsAtNonNegative(parts, d);
      }
    }
  }

  lemma {:induction false} SortedIsDistinct(parts: seq<Part>)
    requires PartsSorted(parts)
    ensures DistinctDates(parts)
  {
    forall i, j | 0 <= i < j < |parts|
      ensures parts[i].expireAt != parts[j].expireAt
    {
      assert Before(parts[i].expireAt, parts[j].expireAt);
    }
  }

  /** A debit that passes the balance check on the swept account is a good posting. */
  lemma {:induction false} DebitPostingOk(acc: Account, bs: seq<Book>, amount: int, today: Date)
    requires AccountOk(acc, bs) && CanDebit(acc, acc.balance, amount)
    requires acc.bookEnabled ==> acc.balance == AvailableTotal(bs, today)
    ensures PostingOk(acc, bs, -amount, if acc.bookEnabled then Draw(Available(bs, today), amount) else [])
  {
    if acc.bookEnabled {
      var parts := Draw(Available(bs, today), amount);
      DrawOnBooks(bs, today, amount);
      SortedIsDistinct(parts);
      ApplySorted(bs, parts);
      ApplyTotal(bs, parts);
      ApplyHas(bs, parts, NO_EXPIRE);
    }
  }

  /** Emptying the expired books is a good posting. */
  lemma {:induction false} SweepPostingOk(acc: Account, bs: seq<Book>, today: Date)
    requires AccountOk(acc, bs) && acc.bookEnabled
    ensures PostingOk(acc, bs, -Total(Expired(bs, today)), SweepParts(bs, today))
  {
    var parts := SweepParts(bs, today);
    SweepOnBooks(bs, today);
    SortedIsDistinct(parts);
    ApplySorted(bs, parts);
    ApplyTotal(bs, parts);
    ApplyHas(bs, parts, NO_EXPIRE);
    assert Usable(NO_EXPIRE, today);
  }
}
