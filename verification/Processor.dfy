/** The processor's own steps, run by one worker from start to end: guard, stage, and then the
    enqueue or the failure that the stage's result calls for. */
module Processors {
  import opened Domain
  import opened Ledger
  import opened Invariants
  import opened Maintenance
  import opened Stages
  import opened Runs
  import opened StageQueues
  import opened Pipeline
  import opened Repositories

  /** The database after a worker has dealt with stage `expected` of `t` undisturbed. */
  function Processed(db: Db, t: TxnNo, expected: Status, env: Env): Db {
    match Stage(db, t, expected, env)
    case Applied(db1) => db1
    case Skipped(_) => db
    case Rejected(e) =>
      if t in db.txns && FailsTxn(db.txns[t], expected, e) then Transition(db, t, expected, Failed) else db
  }

  /** A transaction that is debited never fails, so processing it keeps the invariant. */
  lemma {:induction false} ProcessedKeepsInv(db: Db, t: TxnNo, expected: Status, env: Env)
    requires Inv(db) && ClockInRange(env.today) && !Terminal(expected)
    ensures Inv(Processed(db, t, expected, env))
  {
    StageKeepsInv(db, t, expected, env);
    if Stage(db, t, expected, env).Rejected? && t in db.txns {
      FailKeepsInv(db, t);
    }
  }

  class TransferAsyncProcessor {
    const repo: Repository
    const initQueue: StageQueue
    const paySuccessQueue: StageQueue

    constructor (repository: Repository, first: StageQueue, second: StageQueue)
      ensures repo == repository && initQueue == first && paySuccessQueue == second
    {
      repo, initQueue, paySuccessQueue := repository, first, second;
    }

    ghost predicate Valid()
      reads this, repo, initQueue, paySuccessQueue
    {
      initQueue != paySuccessQueue && repo.Valid() && initQueue.Valid() && paySuccessQueue.Valid()
    }

    function QueueOf(status: Status): StageQueue {
      if status == Init then initQueue else paySuccessQueue
    }

    /** Enqueue a transaction for the stage of its status; terminal statuses need nothing. */
    method EnqueueByStatus(t: TxnNo, status: Status) returns (ok: bool)
      requires Valid()
      modifies initQueue, paySuccessQueue
      ensures Valid()
      ensures Terminal(status) ==> ok && initQueue.Contents() == old(initQueue.Contents())
                                   && paySuccessQueue.Contents() == old(paySuccessQueue.Contents())
      ensures !Terminal(status) ==>
                var q := QueueOf(status);
                (ok, q.Contents()) == Enqueue(q.hash, old(q.Contents()), t, RouteKey(repo.txns, status, t))
      ensures status != Init ==> initQueue.Contents() == old(initQueue.Contents())
      ensures status != PaySuccess ==> paySuccessQueue.Contents() == old(paySuccessQueue.Contents())
    {
      if Terminal(status) {
        return true;
      }
      var q := QueueOf(status);
      ok := q.EnqueueWithRoute(t, RouteKey(repo.txns, status, t));
    }

    /** The queue of stage `s` got the transaction if that is what the worker does next, and is as it
        was otherwise. */
    ghost predicate QueuedAs(q: StageQueue, before: Queue, txns: map<TxnNo, Txn>, s: Status, t: TxnNo, next: Phase)
      reads q
    {
      q.Contents() == if next == Enqueueing(s) then Enqueue(q.hash, before, t, RouteKey(txns, s, t)).1 else before
    }

    /** processStage: whatever the guard answers, the database changes as one stage allows. */
    method ProcessStage(t: TxnNo, expected: Status, guardFree: bool, env: Env) returns (err: Option<Error>)
      requires Valid() && ClockInRange(env.today)
      modifies repo, initQueue, paySuccessQueue
      ensures Valid()
      ensures repo.Snapshot() == if t == "" || Terminal(expected) || !guardFree then old(repo.Snapshot())
                                 else Processed(old(repo.Snapshot()), t, expected, env)
      ensures var next := if t == "" || Terminal(expected) || !guardFree then Finishing
                          else NextPhase(old(repo.Snapshot()), t, expected,
                                         Stage(old(repo.Snapshot()), t, expected, env));
              && QueuedAs(initQueue, old(initQueue.Contents()), repo.txns, Init, t, next)
              && QueuedAs(paySuccessQueue, old(paySuccessQueue.Contents()), repo.txns, PaySuccess, t, next)
    {
      if t == "" {
        return Some(TxnNotFound);
      }
      if Terminal(expected) || !guardFree {
        return None;
      }
      ghost var db := repo.Snapshot();
      ProcessedKeepsInv(db, t, expected, env);
      var applied, current;
      applied, current, err := repo.ApplyTxnStage(t, expected, env);
      if err.Some? {
        if t in repo.txns && FailsTxn(repo.txns[t], expected, err.value) {
          var _ := repo.TransitionTransferTxnStatus(t, expected, Failed);
        }
        return err;
      }
      if !applied {
        var _ := EnqueueByStatus(t, current.value);
        return None;
      }
      if expected == Init {
        var _ := EnqueueByStatus(t, PaySuccess);
      }
      return None;
    }
  }
}
