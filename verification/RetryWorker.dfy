/**
 The delivery tables as an object, and one pass of the retry worker over them when nothing else runs
 (backend/src/db.rs, backend/src/webhook_dispatch.rs, backend/src/webhook_retry_worker.rs).
 */
module RetryWorker {
  import opened Wrappers
  import opened DeliveryLog
  import opened WebhookProtocol

  datatype DbError = NotFound | CallFailed

  class Database {
    var deliveries: Log
    var webhooks: set<WebhookId>
    var alerts: multiset<DeliveryId>

    constructor ()
      ensures deliveries == map[] && webhooks == {} && alerts == multiset{}
    {
      deliveries, webhooks, alerts := map[], {}, multiset{};
    }

    // In all calls, `dbOk` says whether the statement can be executed.

    /** `id` is a fresh UUID. */
    method InsertDelivery(id: DeliveryId, webhook: WebhookId, parses: bool, now: Time, dbOk: bool)
      returns (r: Result<(), DbError>)
      requires id !in deliveries
      modifies this`deliveries
      ensures r.Ok? == dbOk
      ensures deliveries == if dbOk then old(deliveries)[id := NewRow(webhook, parses, now)] else old(deliveries)
    {
      if !dbOk {
        return Err(CallFailed);
      }
      deliveries := deliveries[id := NewRow(webhook, parses, now)];
      r := Ok(());
    }

    method ClaimDelivery(id: DeliveryId, dbOk: bool) returns (r: Result<bool, DbError>)
      modifies this`deliveries
      ensures r == if !dbOk then Err(CallFailed) else Ok(id in old(deliveries) && Claimable(old(deliveries)[id]))
      ensures deliveries == if r == Ok(true) then old(deliveries)[id := Claimed(old(deliveries)[id])]
                            else old(deliveries)
    {
      if !dbOk {
        return Err(CallFailed);
      }
      var won := id in deliveries && Claimable(deliveries[id]);
      if won {
        deliveries := deliveries[id := deliveries[id].(status := InProgress)];
      }
      r := Ok(won);
    }

    method MarkDelivered(id: DeliveryId, dbOk: bool) returns (r: Result<(), DbError>)
      modifies this`deliveries
      ensures r == if !dbOk then Err(CallFailed) else if id !in old(deliveries) then Err(NotFound) else Ok(())
      ensures deliveries
           == if r.Ok? then old(deliveries)[id := MarkedDelivered(old(deliveries)[id])] else old(deliveries)
    {
      if !dbOk {
        return Err(CallFailed);
      }
      if id !in deliveries {
        return Err(NotFound);
      }
      deliveries := deliveries[id := deliveries[id].(status := Delivered)];
      r := Ok(());
    }

    method MarkFailed(id: DeliveryId, attemptCount: int, nextRetryAt: Option<Time>, dbOk: bool)
      returns (r: Result<(), DbError>)
      modifies this`deliveries
      ensures r == if !dbOk then Err(CallFailed) else if id !in old(deliveries) then Err(NotFound) else Ok(())
      ensures deliveries
           == if r.Ok? then old(deliveries)[id := MarkedFailed(old(deliveries)[id], attemptCount, nextRetryAt)]
              else old(deliveries)
    {
      if !dbOk {
        return Err(CallFailed);
      }
      if id !in deliveries {
        return Err(NotFound);
      }
      var status := if nextRetryAt.Some? then Failed else PermanentlyFailed;
      deliveries := deliveries[id := deliveries[id].(status := status,
                                                     attemptCount := attemptCount,
                                                     nextRetryAt := nextRetryAt)];
      r := Ok(());
    }

    /** The max-retries alert; its caller ignores a failure. */
    method InsertAlert(id: DeliveryId, dbOk: bool)
      modifies this`alerts
      ensures alerts == old(alerts) + if dbOk then multiset{id} else multiset{}
    {
      if dbOk {
        alerts := alerts + multiset{id};
      }
    }

    /** The oldest due rows, at most RETRY_BATCH of them. */
    method GetPending(now: Time) returns (batch: seq<Entry>)
      ensures IsPendingBatch(deliveries, now, batch)
    {
      batch := [];
      var due := set id | id in deliveries && Due(deliveries[id], now);
      while due != {} && |batch| < RETRY_BATCH
        invariant |batch| <= RETRY_BATCH
        invariant PartialBatch(deliveries, now, batch, due)
        decreases due
      {
        OldestExists(deliveries, due);
        var id :| id in due && forall other :: other in due ==> deliveries[id].createdAt <= deliveries[other].createdAt;
        AddOldest(deliveries, now, batch, due, id);
        batch := batch + [EntryOf(deliveries, id)];
        due := due - {id};
      }
    }
  }

  /** `batch` holds the oldest due rows in order and `due` the others. */
  ghost predicate PartialBatch(log: Log, now: Time, batch: seq<Entry>, due: set<DeliveryId>) {
    && DistinctIds(batch)
    && (forall id :: id in due ==> id in log && Due(log[id], now) && !Contains(batch, id))
    && (forall id :: id in log && Due(log[id], now) ==> id in due || Contains(batch, id))
    && (forall i :: 0 <= i < |batch| ==>
          batch[i].id in log && Due(log[batch[i].id], now) && batch[i] == EntryOf(log, batch[i].id))
    && (forall i, j :: 0 <= i < j < |batch| ==> log[batch[i].id].createdAt <= log[batch[j].id].createdAt)
    && (forall i, id :: 0 <= i < |batch| && id in due ==> log[batch[i].id].createdAt <= log[id].createdAt)
  }

  lemma {:induction false} ContainsAdded(batch: seq<Entry>, entry: Entry, id: DeliveryId)
    ensures Contains(batch + [entry], id) <==> Contains(batch, id) || entry.id == id
  {
    if Contains(batch, id) {
      var i :| 0 <= i < |batch| && batch[i].id == id;
      assert (batch + [entry])[i].id == id;
    }
    assert (batch + [entry])[|batch|] == entry;
  }

  lemma {:induction false} AddOldest(log: Log, now: Time, batch: seq<Entry>, due: set<DeliveryId>, id: DeliveryId)
    requires PartialBatch(log, now, batch, due)
    requires id in due && forall other :: other in due ==> log[id].createdAt <= log[other].createdAt
    ensures PartialBatch(log, now, batch + [EntryOf(log, id)], due - {id})
  {
    forall other ensures Contains(batch + [EntryOf(log, id)], other) <==> Contains(batch, other) || id == other {
      ContainsAdded(batch, EntryOf(log, id), other);
    }
  }

  lemma {:induction false} OldestExists(log: Log, ids: set<DeliveryId>)
    requires ids != {} && ids <= log.Keys
    ensures exists id :: id in ids && forall other :: other in ids ==> log[id].createdAt <= log[other].createdAt
    decreases |ids|
  {
    var first :| first in ids;
    if ids == {first} {
    } else {
      var rest := ids - {first};
      assert ids == rest + {first};
      OldestExists(log, rest);
      var id :| id in rest && forall other :: other in rest ==> log[id].createdAt <= log[other].createdAt;
      var oldest := if log[first].createdAt <= log[id].createdAt then first else id;
      assert forall other :: other in ids ==> other in rest || other == first;
      assert oldest in ids && forall other :: other in ids ==> log[oldest].createdAt <= log[other].createdAt;
    }
  }

  // ----- One pass -----

  /**
   What the world answers the worker about one delivery: whether the POST returns Ok, the time at which a failed one
   is marked, and which of the database calls can be executed.
   */
  datatype Answer = Answer(postOk: bool, now: Time, lookUpOk: bool, claimOk: bool, markOk: bool, alertOk: bool)

  type Answers = DeliveryId -> Answer

  function AttemptedRow(row: Row, attempt: int, a: Answer): Row {
    if !a.claimOk || !Claimable(row) then row
    else if !a.markOk then Claimed(row)
    else if a.postOk then MarkedDelivered(Claimed(row))
    else MarkedFailed(Claimed(row), attempt, NextRetryAfter(attempt, a.now))
  }

  /** The attempt writes an alert: it was the last one, and its POST failed. */
  predicate AttemptAlerts(row: Row, attempt: int, a: Answer) {
    a.claimOk && Claimable(row) && !a.postOk && attempt >= MAX_ATTEMPTS && a.alertOk
  }

  predicate Condemned(row: Row, live: set<WebhookId>) {
    row.webhook !in live || !row.parses
  }

  /** The row after the worker is through with it. */
  function PassedRow(row: Row, live: set<WebhookId>, a: Answer): Row {
    if !a.lookUpOk then row
    else if !Condemned(row, live) then AttemptedRow(row, row.attemptCount + 1, a)
    else if a.markOk then MarkedFailed(row, row.attemptCount + 1, None)
    else row
  }

  function PassedLog(log: Log, batch: seq<Entry>, live: set<WebhookId>, answers: Answers): Log
    requires forall i :: 0 <= i < |batch| ==> batch[i].id in log
    decreases |batch|
  {
    if batch == [] then log
    else
      var id := batch[0].id;
      PassedLog(log[id := PassedRow(log[id], live, answers(id))], batch[1..], live, answers)
  }

  function RowAlerts(id: DeliveryId, row: Row, live: set<WebhookId>, a: Answer): multiset<DeliveryId> {
    if a.lookUpOk && !Condemned(row, live) && AttemptAlerts(row, row.attemptCount + 1, a) then multiset{id}
    else multiset{}
  }

  /** The alerts a pass writes. */
  function PassedAlerts(log: Log, batch: seq<Entry>, live: set<WebhookId>, answers: Answers): multiset<DeliveryId>
    requires forall i :: 0 <= i < |batch| ==> batch[i].id in log
    decreases |batch|
  {
    if batch == [] then multiset{}
    else
      var id := batch[0].id;
      RowAlerts(id, log[id], live, answers(id))
      + PassedAlerts(log[id := PassedRow(log[id], live, answers(id))], batch[1..], live, answers)
  }

  /** What a pass makes of a row that it has read, column by column, and whether it writes an alert. */
  lemma {:induction false} PassOutcome(id: DeliveryId, row: Row, live: set<WebhookId>, a: Answer)
    requires row.status == Pending || row.status == Failed
    requires 0 <= row.attemptCount <= 2
    ensures var row', n := PassedRow(row, live, a), row.attemptCount + 1;
      && (!a.lookUpOk ==> row' == row)
      && (a.lookUpOk && (row.webhook !in live || !row.parses) ==>
            row' == if a.markOk then row.(status := PermanentlyFailed, attemptCount := n, nextRetryAt := None) else row)
      && (a.lookUpOk && row.webhook in live && row.parses ==>
            && (!a.claimOk ==> row' == row)
            && (a.claimOk && !a.markOk ==> row' == row.(status := InProgress))
            && (a.claimOk && a.markOk && a.postOk ==> row' == row.(status := Delivered))
            && (a.claimOk && a.markOk && !a.postOk ==>
                  row' == if n == 1 then row.(status := Failed, attemptCount := 1, nextRetryAt := Some(a.now + 1))
                          else if n == 2 then row.(status := Failed, attemptCount := 2, nextRetryAt := Some(a.now + 5))
                          else row.(status := PermanentlyFailed, attemptCount := 3, nextRetryAt := None)))
    ensures RowAlerts(id, row, live, a)
         == if a.lookUpOk && row.webhook in live && row.parses && a.claimOk && !a.postOk && row.attemptCount == 2
               && a.alertOk then multiset{id} else multiset{}
  {
  }

  method ExecuteAttempt(db: Database, id: DeliveryId, attempt: int, a: Answer)
    requires id in db.deliveries
    modifies db
    ensures db.webhooks == old(db.webhooks)
    ensures db.deliveries == old(db.deliveries)[id := AttemptedRow(old(db.deliveries)[id], attempt, a)]
    ensures db.alerts == old(db.alerts) +
      if AttemptAlerts(old(db.deliveries)[id], attempt, a) then multiset{id} else multiset{}
  {
    var claim := db.ClaimDelivery(id, a.claimOk);
    if claim.Err? {
      return;
    }
    if !claim.value {
      return;
    }
    if a.postOk {
      var _ := db.MarkDelivered(id, a.markOk);
    } else {
      var next := NextRetryAfter(attempt, a.now);
      if next.None? {
        var _ := db.MarkFailed(id, attempt, None, a.markOk);
        db.InsertAlert(id, a.alertOk);
      } else {
        var _ := db.MarkFailed(id, attempt, next, a.markOk);
      }
    }
  }

  /** What `run_once` does with one row that is still as it was read. */
  method RetryOne(db: Database, entry: Entry, a: Answer)
    requires entry.id in db.deliveries && entry == EntryOf(db.deliveries, entry.id)
    modifies db
    ensures db.webhooks == old(db.webhooks)
    ensures db.deliveries == old(db.deliveries)[entry.id := PassedRow(old(db.deliveries)[entry.id], db.webhooks, a)]
    ensures db.alerts == old(db.alerts) + RowAlerts(entry.id, old(db.deliveries)[entry.id], db.webhooks, a)
  {
    if !a.lookUpOk {
      return;
    }
    if entry.webhook !in db.webhooks {
      var _ := db.MarkFailed(entry.id, entry.attemptCount + 1, None, a.markOk);
    } else if !entry.parses {
      var _ := db.MarkFailed(entry.id, entry.attemptCount + 1, None, a.markOk);
    } else {
      ExecuteAttempt(db, entry.id, entry.attemptCount + 1, a);
    }
  }

  /** The entries are distinct and as the rows are. */
  ghost predicate StillToDo(log: Log, queue: seq<Entry>) {
    && DistinctIds(queue)
    && forall i :: 0 <= i < |queue| ==> queue[i].id in log && queue[i] == EntryOf(log, queue[i].id)
  }

  /** What will have become of log and alerts once the queue is worked through. */
  ghost function Work(
      log: Log, alerts: multiset<DeliveryId>, queue: seq<Entry>, live: set<WebhookId>, answers: Answers)
      : (Log, multiset<DeliveryId>)
    requires StillToDo(log, queue)
  {
    (PassedLog(log, queue, live, answers), alerts + PassedAlerts(log, queue, live, answers))
  }

  /** The pass, one row further. */
  lemma {:induction false} PassHead(
      log: Log, alerts: multiset<DeliveryId>, queue: seq<Entry>, live: set<WebhookId>, answers: Answers)
    requires queue != [] && StillToDo(log, queue)
    ensures var id := queue[0].id;
      var log' := log[id := PassedRow(log[id], live, answers(id))];
      && StillToDo(log', queue[1..])
      && Work(log, alerts, queue, live, answers)
         == Work(log', alerts + RowAlerts(id, log[id], live, answers(id)), queue[1..], live, answers)
  {
    var id := queue[0].id;
    var first := RowAlerts(id, log[id], live, answers(id));
    var rest := PassedAlerts(log[id := PassedRow(log[id], live, answers(id))], queue[1..], live, answers);
    assert alerts + (first + rest) == alerts + first + rest;
  }

  /**
   `run_once`, with any of its database calls failing: the batch it worked on, none if it could not be fetched, is
   returned so that its effect can be stated.
   */
  method RunOnce(db: Database, now: Time, fetchOk: bool, answers: Answers) returns (batch: seq<Entry>)
    modifies db
    ensures if fetchOk then IsPendingBatch(old(db.deliveries), now, batch) else batch == []
    ensures db.webhooks == old(db.webhooks)
    ensures db.deliveries == PassedLog(old(db.deliveries), batch, old(db.webhooks), answers)
    ensures db.alerts == old(db.alerts) + PassedAlerts(old(db.deliveries), batch, old(db.webhooks), answers)
  {
    if !fetchOk {
      return [];
    }
    batch := db.GetPending(now);
    ghost var all := Work(old(db.deliveries), old(db.alerts), batch, old(db.webhooks), answers);
    assert batch[0..] == batch;
    for i := 0 to |batch|
      invariant db.webhooks == old(db.webhooks)
      invariant StillToDo(db.deliveries, batch[i..])
      invariant Work(db.deliveries, db.alerts, batch[i..], db.webhooks, answers) == all
    {
      assert batch[i..][0] == batch[i] && batch[i..][1..] == batch[i + 1..];
      PassHead(db.deliveries, db.alerts, batch[i..], db.webhooks, answers);
      RetryOne(db, batch[i], answers(batch[i].id));
    }
  }

  // ----- The pass is a run of the protocol -----

  /** What the worker still has to do agrees with the rows. */
  ghost predicate QueueFits(log: Log, queue: seq<Entry>) {
    && DistinctIds(queue)
    && (forall i :: 0 <= i < |queue| ==>
          queue[i].id in log && Claimable(log[queue[i].id]) && queue[i] == EntryOf(log, queue[i].id))
  }

  function Queued(queue: seq<Entry>): Worker {
    if queue == [] then Asleep else Pass(queue, Lookup)
  }

  /** The worker is done with the head of its queue, which now has this row, and has written these alerts. */
  predicate HeadDone(s: State, s': State, queue: seq<Entry>, row: Row, alerts: multiset<DeliveryId>)
    requires queue != []
  {
    && s'.log == s.log[queue[0].id := row] && s'.live == s.live && s'.worker == Queued(queue[1..])
    && s'.alerts == s.alerts + alerts
  }

  /** The worker deals with the head of its queue. */
  lemma {:induction false} HeadRuns(s: State, queue: seq<Entry>, a: Answer) returns (s': State)
    requires queue != [] && QueueFits(s.log, queue) && s.worker == Queued(queue)
    ensures Reaches(s, s')
    ensures var id := queue[0].id;
      HeadDone(s, s', queue, PassedRow(s.log[id], s.live, a), RowAlerts(id, s.log[id], s.live, a))
  {
    ReachesItself(s);
    ReachesNext(s, s, LookUp(a.lookUpOk));
    s' := Apply(s, LookUp(a.lookUpOk));
    if a.lookUpOk {
      if Condemned(s.log[queue[0].id], s.live) {
        ReachesNext(s, s', Condemn(a.markOk));
        s' := Apply(s', Condemn(a.markOk));
      } else {
        s' := AttemptRuns(s, s', queue, a);
      }
    }
  }

  lemma {:induction false} WorkerRuns(s0: State, s: State, event: Event)
    requires Reaches(s0, s) && Enabled(s, WorkerStep(event))
    ensures Reaches(s0, Apply(s, WorkerStep(event)))
  {
    ReachesNext(s0, s, WorkerStep(event));
  }

  /** The claim is won and the POST answered. */
  lemma {:induction false} PostRuns(s0: State, s: State, queue: seq<Entry>, ok: bool) returns (s': State)
    requires queue != [] && QueueFits(s.log, queue) && Reaches(s0, s)
    requires s.worker == Pass(queue, Running(Claiming(queue[0].attemptCount + 1)))
    ensures Reaches(s0, s') && s'.live == s.live && s'.alerts == s.alerts
    ensures s'.log == s.log[queue[0].id := Claimed(s.log[queue[0].id])]
    ensures s'.worker == Pass(queue, Running(Answered(queue[0].attemptCount + 1, ok)))
  {
    WorkerRuns(s0, s, Claim(true));
    var s1 := Apply(s, WorkerStep(Claim(true)));
    WorkerRuns(s0, s1, Respond(ok));
    s' := Apply(s1, WorkerStep(Respond(ok)));
  }

  /** The row after the mark, which may fail. */
  function MarkedRow(row: Row, attempt: int, a: Answer): Row {
    if !a.markOk then row
    else if a.postOk then MarkedDelivered(row)
    else MarkedFailed(row, attempt, NextRetryAfter(attempt, a.now))
  }

  /** The row is marked and, if that was the last failure, the alert written. */
  lemma {:induction false} MarkRuns(s0: State, s: State, queue: seq<Entry>, attempt: int, a: Answer)
    returns (s': State)
    requires queue != [] && queue[0].id in s.log && Reaches(s0, s)
    requires s.worker == Pass(queue, Running(Answered(attempt, a.postOk)))
    ensures Reaches(s0, s')
    ensures var id, alert := queue[0].id, !a.postOk && attempt >= MAX_ATTEMPTS && a.alertOk;
      HeadDone(s, s', queue, MarkedRow(s.log[id], attempt, a), if alert then multiset{id} else multiset{})
  {
    WorkerRuns(s0, s, Mark(a.markOk, a.now));
    s' := Apply(s, WorkerStep(Mark(a.markOk, a.now)));
    if !a.postOk && NextRetryAfter(attempt, a.now).None? {
      WorkerRuns(s0, s', Alert(a.alertOk));
      s' := Apply(s', WorkerStep(Alert(a.alertOk)));
    }
  }

  lemma {:induction false} AttemptRuns(s0: State, s: State, queue: seq<Entry>, a: Answer) returns (s': State)
    requires queue != [] && QueueFits(s.log, queue) && Reaches(s0, s)
    requires s.worker == Pass(queue, Running(Claiming(queue[0].attemptCount + 1)))
    ensures Reaches(s0, s')
    ensures var id, attempt := queue[0].id, queue[0].attemptCount + 1;
      HeadDone(s, s', queue, AttemptedRow(s.log[id], attempt, a),
               if AttemptAlerts(s.log[id], attempt, a) then multiset{id} else multiset{})
  {
    if a.claimOk {
      var s1 := PostRuns(s0, s, queue, a.postOk);
      s' := MarkRuns(s0, s1, queue, queue[0].attemptCount + 1, a);
    } else {
      WorkerRuns(s0, s, Claim(false));
      s' := Apply(s, WorkerStep(Claim(false)));
    }
  }

  lemma {:induction false} ReachesTransitive(s: State, s1: State, s2: State)
    requires Reaches(s, s1) && Reaches(s1, s2)
    ensures Reaches(s, s2)
  {
    var first :| ValidRun(s, first) && After(s, first) == s1;
    var second :| ValidRun(s1, second) && After(s1, second) == s2;
    RunConcat(s, first, second);
  }

  lemma {:induction false} QueueRuns(s: State, queue: seq<Entry>, answers: Answers) returns (s': State)
    requires QueueFits(s.log, queue) && s.worker == Queued(queue)
    ensures Reaches(s, s') && s'.live == s.live && s'.worker == Asleep
    ensures s'.log == PassedLog(s.log, queue, s.live, answers)
    ensures s'.alerts == s.alerts + PassedAlerts(s.log, queue, s.live, answers)
    decreases |queue|
  {
    if queue == [] {
      ReachesItself(s);
      s' := s;
    } else {
      var s1 := HeadRuns(s, queue, answers(queue[0].id));
      s' := QueueRuns(s1, queue[1..], answers);
      ReachesTransitive(s, s1, s');
    }
  }

  /** Whatever RunOnce does to the tables, the protocol can do with the worker's steps alone. */
  lemma {:induction false} PassIsRun(s: State, now: Time, batch: seq<Entry>, answers: Answers) returns (s': State)
    requires s.worker.Asleep? && IsPendingBatch(s.log, now, batch)
    ensures Reaches(s, s') && s'.live == s.live && s'.worker.Asleep?
    ensures s'.log == PassedLog(s.log, batch, s.live, answers)
    ensures s'.alerts == s.alerts + PassedAlerts(s.log, batch, s.live, answers)
  {
    ReachesItself(s);
    ReachesNext(s, s, Wake(now, batch));
    var s1 := Apply(s, Wake(now, batch));
    s' := QueueRuns(s1, batch, answers);
    ReachesTransitive(s, s1, s');
  }
}
