/** When a submission is accepted and what it inserts, in terms of the request, the flags of the
    accounts it names and the transactions already there. */
module Submissions {
  import opened Domain
  import opened Ledger

  /** The merchant has an account of this number. */
  predicate Owns(db: Db, m: MerchantNo, a: AccountNo) {
    a != "" && a in db.accounts && db.accounts[a].merchant == m
  }

  /** Neither the number nor the merchant's trade number is in use. */
  predicate Unused(db: Db, t: TxnNo, req: Request) {
    t !in db.txns && forall u | u in db.txns ::
      !(db.txns[u].merchant == req.merchant && db.txns[u].outTradeNo == req.outTradeNo)
  }

  predicate Unnamed(req: Request) {
    req.debit == "" && req.credit == ""
  }

  /** A transfer's accounts are found, or it names none. */
  predicate Found(db: Db, req: Request) {
    Unnamed(req) || (Owns(db, req.merchant, req.debit) && Owns(db, req.merchant, req.credit))
  }

  predicate MayPay(db: Db, req: Request) {
    !Unnamed(req) && req.debit in db.accounts ==> db.accounts[req.debit].allowDebitOut
  }

  predicate MayReceive(db: Db, req: Request) {
    !Unnamed(req) && req.credit in db.accounts ==> db.accounts[req.credit].allowCreditIn
  }

  predicate MayTransfer(db: Db, req: Request) {
    !Unnamed(req) && req.scene == P2P && req.debit in db.accounts ==> db.accounts[req.debit].allowTransfer
  }

  /** A transfer is accepted exactly when its accounts are the merchant's own and their flags allow
      it, its amount is positive and its numbers are unused; every refusal names what is missing. */
  lemma {:induction false} TransferAccepted(db: Db, t: TxnNo, req: Request)
    requires req.biz == Transfer
    ensures var r := Submit(db, t, req);
            var allowed := MayPay(db, req) && MayReceive(db, req) && MayTransfer(db, req);
            && (r.Ok? <==> Found(db, req) && allowed && req.amount > 0 && Unused(db, t, req))
            && (r == Err(AccountResolveFailed) <==> !Found(db, req))
            && (r == Err(AccountForbidDebit) <==> Found(db, req) && !MayPay(db, req))
            && (r == Err(AccountForbidCredit) <==> Found(db, req) && MayPay(db, req) && !MayReceive(db, req))
            && (r == Err(AccountForbidTransfer) <==>
                  Found(db, req) && MayPay(db, req) && MayReceive(db, req) && !MayTransfer(db, req))
            && (r == Err(DuplicateOutTradeNo) <==>
                  Found(db, req) && allowed && req.amount > 0 && !Unused(db, t, req))
  {
  }

  /** A refund is accepted exactly when its origin is a credited transfer of the merchant, other than a
      write-off, with as much left to refund, and the account that was paid may pay back. */
  lemma {:induction false} RefundAccepted(db: Db, t: TxnNo, req: Request)
    requires req.biz == Refund
    ensures var r := Submit(db, t, req);
            var found := req.refundOf.Some? && req.refundOf.value in db.txns
                         && db.txns[req.refundOf.value].merchant == req.merchant;
            if !found then r == Err(TxnNotFound)
            else
              var o := db.txns[req.refundOf.value];
              var refundable := o.biz == Transfer && o.status == RecvSuccess && o.scene != ExpireWriteoff;
              var enough := refundable && o.refundable >= req.amount;
              var owned := enough && Owns(db, req.merchant, o.credit) && Owns(db, req.merchant, o.debit);
              var willing := owned && db.accounts[o.credit].allowDebitOut;
              && (r.Ok? <==> willing && req.amount > 0 && req.scene == NoScene && Unused(db, t, req))
              && (r == Err(TxnStatusInvalid) <==> !refundable)
              && (r == Err(RefundAmountExceeded) <==> refundable && !enough)
              && (r == Err(AccountResolveFailed) <==> enough && !owned)
              && (r == Err(AccountForbidDebit) <==> owned && !willing)
  {
  }

  /** An accepted submission adds one row in INIT with what was asked for: a transfer wholly
      refundable unless a smaller part was named, a refund not at all and between its origin's
      parties, swapped. */
  lemma {:induction false} AcceptedRow(db: Db, t: TxnNo, req: Request)
    requires Submit(db, t, req).Ok?
    ensures var db1 := Submit(db, t, req).value;
            && db1 == db.(txns := db1.txns) && db1.txns.Keys == db.txns.Keys + {t}
            && (forall u | u in db.txns :: db1.txns[u] == db.txns[u])
            && var x := db1.txns[t];
            && x.merchant == req.merchant && x.outTradeNo == req.outTradeNo && x.biz == req.biz
            && x.amount == req.amount
            && x.creditExpireAt == req.creditExpireAt && x.refundOf == req.refundOf
            && (req.status == None || req.status == Some(Init) ==> x.status == Init)
            && (req.scene != NoScene ==> x.scene == req.scene)
            && (req.biz == Transfer && req.scene == NoScene ==> x.scene == Adjust)
            && (req.biz == Transfer ==> x.debit == req.debit && x.credit == req.credit)
            && (req.biz == Refund ==>
                  && req.refundOf.Some? && req.refundOf.value in db.txns
                  && x.debit == db.txns[req.refundOf.value].credit && x.credit == db.txns[req.refundOf.value].debit)
            && (req.refundable > 0 ==> x.refundable == req.refundable)
            && (req.refundable <= 0 ==> x.refundable == if req.biz == Transfer then req.amount else 0)
  {
  }

  /** The flags that decide are those last set: debitOut for paying, creditIn for receiving, transfer
      for paying a P2P transfer. */
  lemma {:induction false} CapabilitiesGovern(db: Db, a: AccountNo, debitOut: bool, creditIn: bool, transfer: bool,
                                              t: TxnNo, req: Request)
    requires req.biz == Transfer && Owns(db, req.merchant, req.debit) && Owns(db, req.merchant, req.credit)
    requires a in {req.debit, req.credit}
    ensures var r := Submit(SetCapabilities(db, a, debitOut, creditIn, transfer), t, req);
            && (a == req.debit ==> (r == Err(AccountForbidDebit) <==> !debitOut))
            && (a == req.credit && r != Err(AccountForbidDebit) ==> (r == Err(AccountForbidCredit) <==> !creditIn))
            && (a == req.debit && req.scene == P2P && r != Err(AccountForbidDebit) && r != Err(AccountForbidCredit) ==>
                  (r == Err(AccountForbidTransfer) <==> !transfer))
  {
  }

  /** A write-off account as it is opened may receive, but nothing can be submitted that takes money
      out of it, nor can what was written off be refunded. */
  lemma {:induction false} WriteoffIsClosed(db: Db, m: MerchantNo, no: AccountNo, t: TxnNo, req: Request)
    requires EnsureWriteoff(db, m, Some(no)).Ok? && no !in db.accounts && db.merchants[m] == "" && req.merchant == m
    ensures var (db1, w) := EnsureWriteoff(db, m, Some(no)).value;
            && w == no && w in db1.accounts && db1.accounts[w].balance == 0 && !db1.accounts[w].allowOverdraft
            && !db1.accounts[w].allowTransfer && !db1.accounts[w].bookEnabled
            && (req.biz == Transfer && req.credit == w ==> Submit(db1, t, req) != Err(AccountForbidCredit))
            && (req.biz == Transfer && req.debit == w ==> Submit(db1, t, req).Err?)
            && (req.biz == Refund && req.refundOf.Some? && req.refundOf.value in db1.txns
                && (db1.txns[req.refundOf.value].credit == w
                    || db1.txns[req.refundOf.value].scene == ExpireWriteoff) ==>
                  Submit(db1, t, req).Err?)
  {
  }

  /** A write-off's trade number names the account and the first eight characters of its number. */
  lemma {:induction false} TradeNoOfUuid(a: AccountNo, t: TxnNo)
    requires |t| >= 8 && '-' !in t[..8]
    ensures WriteoffTradeNo(a, t) == "sys_expire_" + a + "_" + t[..8]
  {
    assert t == t[..8] + t[8..];
    NoDashesKeeps(t[..8], t[8..]);
  }

  lemma {:induction false} NoDashesKeeps(s: string, rest: string)
    requires '-' !in s
    ensures NoDashes(s + rest) == s + NoDashes(rest)
  {
    if s == "" {
      assert s + rest == rest;
    } else {
      assert (s + rest)[1..] == s[1..] + rest && (s + rest)[0] == s[0];
      NoDashesKeeps(s[1..], rest);
      assert s == [s[0]] + s[1..];
    }
  }
}
