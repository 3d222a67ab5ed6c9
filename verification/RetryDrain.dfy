/** The retry worker drains the delivery log: passes over due rows end after finitely many reads. */
module RetryDrain {
  import opened DeliveryLog
  import opened WebhookProtocol
  import opened RetryWorker

  /** The attempts a row still has. */
  function RowLeft(row: Row): nat {
    if Claimable(row) && row.attemptCount <= MAX_ATTEMPTS then MAX_ATTEMPTS - row.attemptCount else 0
  }

  ghost function Left(log: Log): nat
    decreases log.Keys
  {
    if log == map[] then 0
    else
      var id :| id in log;
      RowLeft(log[id]) + Left(log - {id})
  }

  /** A row that can be claimed has attempts left, and a retry time if it has failed. */
  predicate CountedRow(row: Row) {
    && (Claimable(row) ==> 0 <= row.attemptCount < MAX_ATTEMPTS)
    && (row.status == Failed ==> row.nextRetryAt.Some?)
  }

  /** So it is in every state of the protocol. */
  predicate Counted(log: Log) {
    forall id :: id in log ==> CountedRow(log[id])
  }

  predicate NoneInProgress(log: Log) {
    forall id :: id in log ==> log[id].status != InProgress
  }

  /** No database call fails. */
  ghost predicate FaultFree(answers: Answers) {
    forall id :: answers(id).lookUpOk && answers(id).claimOk && answers(id).markOk
  }

  lemma {:induction false} ReachableLogsAreCounted(s: State)
    requires Invariant(s)
    ensures Counted(s.log)
  {
    forall id | id in s.log ensures CountedRow(s.log[id]) {
      assert RowInvariant(ViewOf(s, id));
    }
  }

  lemma {:induction false} LeftSplit(log: Log, id: DeliveryId)
    requires id in log
    ensures Left(log) == RowLeft(log[id]) + Left(log - {id})
    decreases log.Keys
  {
    var first :| first in log && Left(log) == RowLeft(log[first]) + Left(log - {first});
    if first != id {
      LeftSplit(log - {first}, id);
      LeftSplit(log - {id}, first);
      assert log - {first} - {id} == log - {id} - {first};
    }
  }

  lemma {:induction false} LeftUpdate(log: Log, id: DeliveryId, row: Row)
    requires id in log
    ensures Left(log[id := row]) == Left(log) - RowLeft(log[id]) + RowLeft(row)
  {
    LeftSplit(log, id);
    LeftSplit(log[id := row], id);
    assert log[id := row] - {id} == log - {id};
  }

  lemma {:induction false} LeftIsBounded(log: Log)
    requires Counted(log)
    ensures Left(log) <= MAX_ATTEMPTS * |log|
    decreases log.Keys
  {
    if log != map[] {
      var id :| id in log;
      LeftSplit(log, id);
      LeftIsBounded(log - {id});
      assert (log - {id}).Keys == log.Keys - {id};
    }
  }

  lemma {:induction false} ClaimableRowsAreLeft(log: Log, id: DeliveryId)
    requires Counted(log) && id in log && Claimable(log[id])
    ensures Left(log) > 0
  {
    LeftSplit(log, id);
  }

  // ----- One pass -----

  /** How many rows of the batch the pass changes: a failing call can leave one as it was. */
  function RowsChanged(log: Log, batch: seq<Entry>, live: set<WebhookId>, answers: Answers): nat
    requires forall i :: 0 <= i < |batch| ==> batch[i].id in log
    decreases |batch|
  {
    if batch == [] then 0
    else
      var id := batch[0].id;
      var row := PassedRow(log[id], live, answers(id));
      (if row != log[id] then 1 else 0) + RowsChanged(log[id := row], batch[1..], live, answers)
  }

  lemma {:induction false} RowIsUsedUp(row: Row, live: set<WebhookId>, a: Answer)
    requires Claimable(row) && CountedRow(row)
    ensures var row' := PassedRow(row, live, a);
      && RowLeft(row') + (if row' != row then 1 else 0) <= RowLeft(row)
      && CountedRow(row')
      && (a.lookUpOk && a.claimOk && a.markOk ==> row' != row && row'.status != InProgress)
  {
  }

  lemma {:induction false} PassKeepsCounted(log: Log, batch: seq<Entry>, live: set<WebhookId>, answers: Answers)
    requires Counted(log) && QueueFits(log, batch)
    ensures Counted(PassedLog(log, batch, live, answers))
    ensures Left(PassedLog(log, batch, live, answers)) + RowsChanged(log, batch, live, answers) <= Left(log)
    decreases |batch|
  {
    if batch != [] {
      var id := batch[0].id;
      var row := PassedRow(log[id], live, answers(id));
      RowIsUsedUp(log[id], live, answers(id));
      LeftUpdate(log, id, row);
      PassKeepsCounted(log[id := row], batch[1..], live, answers);
    }
  }

  lemma {:induction false} FaultFreePass(log: Log, batch: seq<Entry>, live: set<WebhookId>, answers: Answers)
    requires Counted(log) && QueueFits(log, batch) && FaultFree(answers)
    ensures RowsChanged(log, batch, live, answers) == |batch|
    ensures NoneInProgress(log) ==> NoneInProgress(PassedLog(log, batch, live, answers))
    decreases |batch|
  {
    if batch != [] {
      var id := batch[0].id;
      var row := PassedRow(log[id], live, answers(id));
      RowIsUsedUp(log[id], live, answers(id));
      FaultFreePass(log[id := row], batch[1..], live, answers);
    }
  }

  function DueIds(log: Log, now: Time): set<DeliveryId> {
    set id | id in log && Due(log[id], now)
  }

  ghost function IdsIn(batch: seq<Entry>): set<DeliveryId> {
    set i | 0 <= i < |batch| :: batch[i].id
  }

  lemma {:induction false} DistinctIdsCount(batch: seq<Entry>)
    requires DistinctIds(batch)
    ensures |IdsIn(batch)| == |batch|
    decreases |batch|
  {
    if batch != [] {
      var init, last := batch[..|batch| - 1], batch[|batch| - 1];
      DistinctIdsCount(init);
      assert last.id !in IdsIn(init);
      forall id ensures id in IdsIn(batch) <==> id in IdsIn(init) + {last.id} {
        if id in IdsIn(init) {
          var i :| 0 <= i < |init| && init[i].id == id;
          assert batch[i].id == id;
        }
      }
      assert IdsIn(batch) == IdsIn(init) + {last.id};
    }
  }

  lemma {:induction false} SubsetsAreSmaller<T>(a: set<T>, b: set<T>)
    requires a <= b
    ensures |a| <= |b|
  {
    assert b == a + (b - a);
  }

  /** The batch holds all due rows, or RETRY_BATCH of them. */
  lemma {:induction false} BatchSize(log: Log, now: Time, batch: seq<Entry>)
    requires IsPendingBatch(log, now, batch)
    ensures |batch| == if |DueIds(log, now)| <= RETRY_BATCH then |DueIds(log, now)| else RETRY_BATCH
  {
    DistinctIdsCount(batch);
    forall id | id in IdsIn(batch) ensures id in DueIds(log, now) {
    }
    SubsetsAreSmaller(IdsIn(batch), DueIds(log, now));
    if |batch| < RETRY_BATCH {
      forall id | id in DueIds(log, now) ensures id in IdsIn(batch) {
        assert Contains(batch, id);
      }
      assert IdsIn(batch) == DueIds(log, now);
    }
  }

  lemma {:induction false} BatchFits(log: Log, now: Time, batch: seq<Entry>)
    requires IsPendingBatch(log, now, batch)
    ensures QueueFits(log, batch)
  {
  }

  /**
   Every pass uses up at least one attempt for each row it changes; if no call fails, these are the rows it reads,
   min(100, due) of them.
   */
  lemma {:induction false} PassLowersLeft(
      log: Log, now: Time, batch: seq<Entry>, live: set<WebhookId>, answers: Answers)
    requires Counted(log) && IsPendingBatch(log, now, batch)
    ensures Left(PassedLog(log, batch, live, answers)) + RowsChanged(log, batch, live, answers) <= Left(log)
    ensures var due := |DueIds(log, now)|;
      FaultFree(answers) ==>
        RowsChanged(log, batch, live, answers) == if due <= RETRY_BATCH then due else RETRY_BATCH
  {
    BatchSize(log, now, batch);
    BatchFits(log, now, batch);
    PassKeepsCounted(log, batch, live, answers);
    if FaultFree(answers) { FaultFreePass(log, batch, live, answers); }
  }

  datatype WorkerPass = WorkerPass(now: Time, batch: seq<Entry>, live: set<WebhookId>, answers: Answers)

  ghost predicate ValidPasses(log: Log, passes: seq<WorkerPass>)
    decreases |passes|
  {
    passes == [] ||
    var p := passes[0];
    && IsPendingBatch(log, p.now, p.batch)
    && ValidPasses(PassedLog(log, p.batch, p.live, p.answers), passes[1..])
  }

  ghost function AfterPasses(log: Log, passes: seq<WorkerPass>): Log
    requires ValidPasses(log, passes)
    decreases |passes|
  {
    if passes == [] then log
    else AfterPasses(PassedLog(log, passes[0].batch, passes[0].live, passes[0].answers), passes[1..])
  }

  /** Each pass comes at or after the retry time of every failed row. */
  ghost predicate AllDue(log: Log, passes: seq<WorkerPass>)
    requires ValidPasses(log, passes)
    decreases |passes|
  {
    passes == [] ||
    var p := passes[0];
    && (forall id :: id in log && log[id].status == Failed && log[id].nextRetryAt.Some? ==>
          log[id].nextRetryAt.value <= p.now)
    && AllDue(PassedLog(log, p.batch, p.live, p.answers), passes[1..])
  }

  /** How many rows the passes change in all. */
  ghost function AllChanged(log: Log, passes: seq<WorkerPass>): nat
    requires ValidPasses(log, passes)
    decreases |passes|
  {
    if passes == [] then 0
    else
      var p := passes[0];
      RowsChanged(log, p.batch, p.live, p.answers)
      + AllChanged(PassedLog(log, p.batch, p.live, p.answers), passes[1..])
  }

  ghost predicate AllFaultFree(passes: seq<WorkerPass>) {
    forall i :: 0 <= i < |passes| ==> FaultFree(passes[i].answers)
  }

  function RowsRead(passes: seq<WorkerPass>): nat {
    if passes == [] then 0 else |passes[0].batch| + RowsRead(passes[1..])
  }

  /**
   Over any number of passes, at any times and with any calls failing, the worker changes a row at most three times per
   delivery; if no call fails, these are all the rows it reads.
   */
  lemma {:induction false} ReadsAreBounded(log: Log, passes: seq<WorkerPass>)
    requires Counted(log) && ValidPasses(log, passes)
    ensures AllChanged(log, passes) + Left(AfterPasses(log, passes)) <= Left(log) <= MAX_ATTEMPTS * |log|
    ensures AllFaultFree(passes) ==> RowsRead(passes) == AllChanged(log, passes)
    decreases |passes|
  {
    LeftIsBounded(log);
    if passes != [] {
      var p := passes[0];
      BatchFits(log, p.now, p.batch);
      PassKeepsCounted(log, p.batch, p.live, p.answers);
      if AllFaultFree(passes) { FaultFreePass(log, p.batch, p.live, p.answers); }
      ReadsAreBounded(PassedLog(log, p.batch, p.live, p.answers), passes[1..]);
    }
  }

  /** After as many passes over due rows as there are attempts left, every row is terminal. */
  lemma {:induction false} DrainCompletes(log: Log, passes: seq<WorkerPass>)
    requires Counted(log) && NoneInProgress(log) && ValidPasses(log, passes) && AllDue(log, passes)
    requires AllFaultFree(passes)
    requires |passes| >= Left(log)
    ensures forall id :: id in AfterPasses(log, passes) ==>
      AfterPasses(log, passes)[id].status == Delivered || AfterPasses(log, passes)[id].status == PermanentlyFailed
    decreases |passes|
  {
    if passes == [] {
      forall id | id in log ensures !Claimable(log[id]) {
        if Claimable(log[id]) { ClaimableRowsAreLeft(log, id); }
      }
    } else {
      var p := passes[0];
      BatchFits(log, p.now, p.batch);
      PassKeepsCounted(log, p.batch, p.live, p.answers);
      FaultFreePass(log, p.batch, p.live, p.answers);
      if p.batch == [] {
        NothingLeft(log, p.now, p.batch);
      }
      DrainCompletes(PassedLog(log, p.batch, p.live, p.answers), passes[1..]);
    }
  }

  lemma {:induction false} NothingLeft(log: Log, now: Time, batch: seq<Entry>)
    requires Counted(log) && IsPendingBatch(log, now, batch) && batch == []
    requires forall id :: id in log && log[id].status == Failed && log[id].nextRetryAt.Some? ==>
      log[id].nextRetryAt.value <= now
    ensures Left(log) == 0
  {
    forall id | id in log ensures !Claimable(log[id]) {
      BatchReadsWhatIsDue(log, now, batch, id);
      assert !Contains(batch, id);
    }
    NoClaimsLeft(log);
  }

  lemma {:induction false} NoClaimsLeft(log: Log)
    requires forall id :: id in log ==> !Claimable(log[id])
    ensures Left(log) == 0
    decreases log.Keys
  {
    if log != map[] {
      var id :| id in log;
      LeftSplit(log, id);
      NoClaimsLeft(log - {id});
    }
  }
}
