/** How each part of the invariant follows a change of the tables it mentions. */
module Frames {
  import opened Domain
  import opened Collections
  import opened Refunds
  import opened Ledger
  import opened Invariants

  /** Everything about a transaction except status and refundable amount. */
  predicate SameTerms(x: Txn, y: Txn) {
    y == x.(status := y.status, refundable := y.refundable)
  }

  predicate Advances(from: Status, to: Status) {
    from == to || MayTransit(from, to)
  }

  /** Every transaction is still there with its terms, and its status stayed or made a legal move. */
  ghost predicate Grows(txns: map<TxnNo, Txn>, txns1: map<TxnNo, Txn>) {
    forall t | t in txns :: t in txns1 && SameTerms(txns[t], txns1[t]) && Advances(txns[t].status, txns1[t].status)
  }

  /** Every account is still there, with its merchant and its kind. */
  ghost predicate AccountsGrow(accounts: map<AccountNo, Account>, accounts1: map<AccountNo, Account>) {
    forall a | a in accounts ::
      && a in accounts1 && accounts1[a].merchant == accounts[a].merchant
      && accounts1[a].bookEnabled == accounts[a].bookEnabled
  }

  lemma {:induction false} TxnsFrame(accounts: map<AccountNo, Account>, accounts1: map<AccountNo, Account>,
                                     txns: map<TxnNo, Txn>, txns1: map<TxnNo, Txn>)
    requires TxnsOk(accounts, txns) && AccountsGrow(accounts, accounts1) && Grows(txns, txns1)
    requires forall t | t in txns :: txns1[t].refundable >= 0
    requires forall t | t in txns && Debited(txns1[t].status) :: txns[t].debit != ""
    requires forall t | t in txns1 && t !in txns :: TxnOk(accounts1, txns1, txns1[t])
    ensures TxnsOk(accounts1, txns1)
  {
    forall t | t in txns1
      ensures TxnOk(accounts1, txns1, txns1[t])
    {
      if t in txns {
        assert TxnOk(accounts, txns, txns[t]);
      }
    }
  }

  lemma {:induction false} TradesFrame(txns: map<TxnNo, Txn>, txns1: map<TxnNo, Txn>)
    requires TradesUnique(txns) && Grows(txns, txns1) && txns1.Keys == txns.Keys
    ensures TradesUnique(txns1)
  {
    forall t, u | t in txns1 && u in txns1 && SameTrade(txns1[t], txns1[u])
      ensures t == u
    {
      assert SameTerms(txns[t], txns1[t]) && SameTerms(txns[u], txns1[u]);
      assert SameTrade(txns[t], txns[u]);
    }
  }

  lemma {:induction false} TradesInsert(txns: map<TxnNo, Txn>, t: TxnNo, x: Txn)
    requires TradesUnique(txns) && t !in txns && !TradeTaken(txns, x.merchant, x.outTradeNo)
    ensures TradesUnique(txns[t := x])
  {
    var txns1 := txns[t := x];
    forall u, v | u in txns1 && v in txns1 && SameTrade(txns1[u], txns1[v])
      ensures u == v
    {
      if u != t && v != t {
        assert SameTrade(txns[u], txns[v]);
      }
    }
  }

  lemma {:induction false} MovesSnoc(log: seq<AccountChange>, e: AccountChange, t: TxnNo)
    ensures Moves(log + [e], t) == Moves(log, t) + (if e.txn == t then [(e.account, e.delta)] else [])
  {
    assert (log + [e])[..|log|] == log;
  }

  lemma {:induction false} JournalSnoc(txns: map<TxnNo, Txn>, txns1: map<TxnNo, Txn>, log: seq<AccountChange>,
                                       e: AccountChange)
    requires JournalOk(txns, log) && e.txn in txns1
    requires forall t | t in txns :: t in txns1
    requires forall t: TxnNo ::
      Expected(txns1, t) == Expected(txns, t) + (if t == e.txn then [(e.account, e.delta)] else [])
    ensures JournalOk(txns1, log + [e])
  {
    forall t: TxnNo
      ensures MovesOk(txns1, log + [e], t)
    {
      assert MovesOk(txns, log, t);
      MovesSnoc(log, e, t);
    }
  }

  lemma {:induction false} JournalFrame(txns: map<TxnNo, Txn>, txns1: map<TxnNo, Txn>, log: seq<AccountChange>)
    requires JournalOk(txns, log)
    requires forall t | t in txns :: t in txns1
    requires forall t: TxnNo :: Expected(txns1, t) == Expected(txns, t)
    ensures JournalOk(txns1, log)
  {
    forall t: TxnNo
      ensures MovesOk(txns1, log, t)
    {
      assert MovesOk(txns, log, t);
    }
  }

  /** Debited transactions never stop being so. */
  ghost predicate NoFall(txns: map<TxnNo, Txn>, txns1: map<TxnNo, Txn>) {
    forall t | t in txns && Debited(txns[t].status) :: t in txns1 && Debited(txns1[t].status)
  }

  lemma {:induction false} BookJournalFrame(txns: map<TxnNo, Txn>, txns1: map<TxnNo, Txn>, bookLog: seq<BookChange>,
                                            changes: seq<BookChange>)
    requires BookJournalOk(txns, bookLog) && Grows(txns, txns1) && NoFall(txns, txns1)
    requires BookJournalOk(txns1, changes)
    ensures BookJournalOk(txns1, bookLog + changes)
  {
    forall c | c in bookLog + changes
      ensures BookEntryOk(txns1, c)
    {
      if c in bookLog {
        assert BookEntryOk(txns, c);
      } else {
        assert c in changes;
      }
    }
  }

  lemma {:induction false} OutboxFrame(txns: map<TxnNo, Txn>, txns1: map<TxnNo, Txn>, outbox: seq<OutboxEvent>)
    requires OutboxOk(txns, outbox) && Grows(txns, txns1)
    ensures OutboxOk(txns1, outbox)
  {
    forall e | e in outbox
      ensures EventOk(txns1, e)
    {
      assert EventOk(txns, e);
    }
  }

  lemma {:induction false} TraceOther(log: seq<BookChange>, changes: seq<BookChange>, u: TxnNo, a: AccountNo)
    requires forall c | c in changes :: !(c.txn == u && c.account == a && c.delta < 0)
    ensures Trace(log + changes, u, a) == Trace(log, u, a)
  {
    FilterConcat(IsTrace(u, a), log, changes);
    FilterNone(IsTrace(u, a), changes);
  }

  lemma {:induction false} SumOther(f: BookChange -> int, log: seq<BookChange>, changes: seq<BookChange>)
    requires forall c | c in changes :: f(c) == 0
    ensures SumBy(f, log + changes) == SumBy(f, log)
  {
    SumConcat(f, log, changes);
    SumZero(f, changes);
  }

  /** Entries of one transaction `t` leave the traces of all others alone. */
  lemma {:induction false} TracesFrame(accounts: map<AccountNo, Account>, accounts1: map<AccountNo, Account>,
                    txns: map<TxnNo, Txn>, txns1: map<TxnNo, Txn>, bookLog: seq<BookChange>, changes: seq<BookChange>,
                    t: TxnNo)
    requires TracesOk(accounts, txns, bookLog) && AccountsGrow(accounts, accounts1)
    requires forall u | u in txns1 && u != t && Debited(txns1[u].status) ::
      u in txns && SameTerms(txns[u], txns1[u]) && Debited(txns[u].status) && txns[u].debit in accounts
    requires forall c | c in changes :: c.txn == t
    requires t in txns1 && Debited(txns1[t].status) && IsBook(accounts1, txns1[t].debit) ==>
      GoodTrace(Trace(bookLog + changes, t, txns1[t].debit), txns1[t].amount)
    ensures TracesOk(accounts1, txns1, bookLog + changes)
  {
    forall u | u in txns1 && Debited(txns1[u].status) && IsBook(accounts1, txns1[u].debit)
      ensures GoodTrace(Trace(bookLog + changes, u, txns1[u].debit), txns1[u].amount)
    {
      if u != t {
        assert IsBook(accounts, txns[u].debit);
        TraceOther(bookLog, changes, u, txns[u].debit);
      }
    }
  }

  lemma {:induction false} ProfileOther(bookLog: seq<BookChange>, changes: seq<BookChange>, u: TxnNo, debit: AccountNo,
                                        credit: AccountNo)
    requires forall c | c in changes :: c.txn != u
    requires ProfileKept(bookLog, u, debit, credit)
    ensures ProfileKept(bookLog + changes, u, debit, credit)
  {
    forall d: Date
      ensures SumBy(CreditOn(u, credit, d), bookLog + changes) == SumBy(DebitOn(u, debit, d), bookLog + changes)
    {
      assert SumBy(CreditOn(u, credit, d), bookLog) == SumBy(DebitOn(u, debit, d), bookLog);
      SumOther(CreditOn(u, credit, d), bookLog, changes);
      SumOther(DebitOn(u, debit, d), bookLog, changes);
    }
  }

  lemma {:induction false} ProfilesFrame(accounts: map<AccountNo, Account>, accounts1: map<AccountNo, Account>,
                      txns: map<TxnNo, Txn>, txns1: map<TxnNo, Txn>, bookLog: seq<BookChange>,
                      changes: seq<BookChange>, t: TxnNo)
    requires ProfilesOk(accounts, txns, bookLog) && AccountsGrow(accounts, accounts1)
    requires forall u | u in txns1 && u != t && txns1[u].status == RecvSuccess ::
      && u in txns && SameTerms(txns[u], txns1[u]) && txns[u].status == RecvSuccess
      && txns[u].debit in accounts && txns[u].credit in accounts
    requires forall c | c in changes :: c.txn == t
    requires t in txns1 && txns1[t].status == RecvSuccess && BookToBook(accounts1, txns1[t]) ==>
      ProfileKept(bookLog + changes, t, txns1[t].debit, txns1[t].credit)
    ensures ProfilesOk(accounts1, txns1, bookLog + changes)
  {
    forall u | u in txns1 && txns1[u].status == RecvSuccess && BookToBook(accounts1, txns1[u])
      ensures ProfileKept(bookLog + changes, u, txns1[u].debit, txns1[u].credit)
    {
      if u != t {
        assert BookToBook(accounts, txns[u]);
        ProfileOther(bookLog, changes, u, txns[u].debit, txns[u].credit);
      }
    }
  }

  /** The refund statistics read only the terms of transactions. */
  lemma {:induction false} StatsFrame(txns: map<TxnNo, Txn>, txns1: map<TxnNo, Txn>, m: MerchantNo, o: TxnNo,
                                      a: AccountNo, log: seq<AccountChange>)
    requires Grows(txns, txns1)
    requires forall e | e in log :: e.txn in txns
    ensures SumBy(DebitedAmount(txns1, m, o, a), log) == SumBy(DebitedAmount(txns, m, o, a), log)
  {
    SumSame(DebitedAmount(txns1, m, o, a), DebitedAmount(txns, m, o, a), log);
  }

  /** Nobody refunds a transaction that is not in the table yet. */
  lemma {:induction false} RefundedNothing(txns: map<TxnNo, Txn>, o: TxnNo)
    requires forall t | t in txns && txns[t].biz == Refund :: txns[t].refundOf != Some(o)
    ensures Refunded(txns, o) == 0
  {
    SumMapZero(RefundedBy(o), txns);
  }

  lemma {:induction false} SumMapZero<K, V>(f: V -> int, m: map<K, V>)
    requires forall k | k in m :: f(m[k]) == 0
    ensures SumMap(f, m) == 0
    decreases |m|
  {
    if m == map[] {
    } else {
      var k :| k in m;
      SumMapRemove(f, m, k);
      SumMapZero(f, m - {k});
    }
  }

  lemma {:induction false} BalancePost(accounts: map<AccountNo, Account>, a: AccountNo, delta: int, m: MerchantNo)
    requires a in accounts
    ensures SumMap(BalanceIn(m), accounts[a := accounts[a].(balance := accounts[a].balance + delta)])
         == SumMap(BalanceIn(m), accounts) + (if accounts[a].merchant == m then delta else 0)
  {
    SumMapUpdate(BalanceIn(m), accounts, a, accounts[a].(balance := accounts[a].balance + delta));
  }
}
