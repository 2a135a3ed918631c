/** Submission of transfers and refunds. */
module TransferServices {
  import opened Domain
  import opened Ledger
  import opened Maintenance
  import opened Repositories

  class TransferService {
    const repo: Repository

    constructor (repository: Repository)
      ensures repo == repository
    {
      repo := repository;
    }

    method ValidateSubmitTransferAccounts(m: MerchantNo, scene: Scene, debitNo: AccountNo, creditNo: AccountNo)
      returns (err: Option<Error>)
      ensures err == CheckTransferAccounts(repo.Snapshot(), m, scene, debitNo, creditNo)
    {
      if debitNo == "" || creditNo == "" {
        return Some(AccountResolveFailed);
      }
      if debitNo !in repo.accounts || creditNo !in repo.accounts {
        return Some(AccountResolveFailed);
      }
      var debit, credit := repo.accounts[debitNo], repo.accounts[creditNo];
      if debit.merchant != m || credit.merchant != m {
        return Some(AccountResolveFailed);
      }
      if !debit.allowDebitOut {
        return Some(AccountForbidDebit);
      }
      if !credit.allowCreditIn {
        return Some(AccountForbidCredit);
      }
      if scene == P2P && !debit.allowTransfer {
        return Some(AccountForbidTransfer);
      }
      return None;
    }

    method ValidateSubmitRefundAccounts(m: MerchantNo, debitNo: AccountNo, creditNo: AccountNo)
      returns (err: Option<Error>)
      ensures err == CheckRefundAccounts(repo.Snapshot(), m, debitNo, creditNo)
    {
      if debitNo == "" || creditNo == "" {
        return Some(AccountResolveFailed);
      }
      if debitNo !in repo.accounts || creditNo !in repo.accounts {
        return Some(AccountResolveFailed);
      }
      var debit, credit := repo.accounts[debitNo], repo.accounts[creditNo];
      if debit.merchant != m || credit.merchant != m {
        return Some(AccountResolveFailed);
      }
      if !debit.allowDebitOut {
        return Some(AccountForbidDebit);
      }
      return None;
    }

    /** The checks and the filling in of the row: a refund moves its origin's money back, so its
        parties are the origin's, swapped. */
    method PrepareRow(req: Request) returns (row: Txn, err: Option<Error>)
      ensures match Prepare(repo.Snapshot(), req)
              case Ok(x) => err == None && row == x
              case Err(e) => err == Some(e)
    {
      var scene := req.scene;
      if req.biz == Transfer && scene == NoScene {
        scene := Adjust;
      }
      var refundable := req.refundable;
      if refundable < 0 {
        refundable := 0;
      }
      if req.biz == Transfer && refundable == 0 {
        refundable := req.amount;
      }
      var status := if req.status.None? then Init else req.status.value;
      row := Txn(req.merchant, req.outTradeNo, req.biz, scene, req.debit, req.credit, req.creditExpireAt, req.amount,
                 status, req.refundOf, refundable);
      if req.biz == Refund {
        if req.refundOf.None? || req.refundOf.value !in repo.txns {
          return row, Some(TxnNotFound);
        }
        var origin := repo.txns[req.refundOf.value];
        if origin.merchant != req.merchant {
          return row, Some(TxnNotFound);
        }
        if origin.biz != Transfer || origin.status != RecvSuccess {
          return row, Some(TxnStatusInvalid);
        }
        if origin.scene == ExpireWriteoff {
          return row, Some(TxnStatusInvalid);
        }
        if origin.refundable < req.amount {
          return row, Some(RefundAmountExceeded);
        }
        row := row.(debit := origin.credit, credit := origin.debit);
        err := ValidateSubmitRefundAccounts(req.merchant, row.debit, row.credit);
      } else if row.debit != "" || row.credit != "" {
        err := ValidateSubmitTransferAccounts(req.merchant, scene, row.debit, row.credit);
      } else {
        err := None;
      }
    }

    method Submit(t: TxnNo, req: Request) returns (err: Option<Error>)
      requires repo.Valid()
      modifies repo
      ensures FromApi(req) ==> repo.Valid()
      ensures match Ledger.Submit(old(repo.Snapshot()), t, req)
              case Ok(db1) => err == None && repo.Snapshot() == db1
              case Err(e) => err == Some(e) && repo.Snapshot() == old(repo.Snapshot())
    {
      ghost var db := repo.Snapshot();
      var row;
      row, err := PrepareRow(req);
      if err.Some? {
        return;
      }
      if row.amount > 0 && FromApi(req) {
        PrepareChecks(db, req);
        if InsertTxn(db, t, row).Ok? {
          InsertPrepared(db, t, row);
        }
      }
      err := repo.CreateTransferTxn(t, row);
    }
  }
}
