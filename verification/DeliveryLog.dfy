/**
 The `webhook_delivery_log` table and the attempt routine that drives one of its rows
 (backend/src/db.rs, backend/src/webhook_dispatch.rs).

 Every database call runs under one mutex, so each call is a single function on the table.
 Ids are numbers instead of UUIDs; times are whole seconds; of a stored payload only whether it
 parses as JSON is kept.
 */
module DeliveryLog {
  import opened Wrappers

  type DeliveryId = nat
  type WebhookId = nat
  type Time = int

  const MAX_ATTEMPTS := 3
  const RETRY_BATCH := 100

  datatype Status = Pending | InProgress | Failed | Delivered | PermanentlyFailed

  datatype Row = Row(
    webhook: WebhookId,
    parses: bool,
    status: Status,
    attemptCount: int,
    nextRetryAt: Option<Time>,
    createdAt: Time)

  type Log = map<DeliveryId, Row>

  // ----- The SQL statements, one row at a time -----

  function NewRow(webhook: WebhookId, parses: bool, now: Time): Row {
    Row(webhook, parses, Pending, 0, None, now)
  }

  predicate Claimable(row: Row) {
    row.status == Pending || row.status == Failed
  }

  /** The compare-and-set claim: only a pending or failed row becomes in-progress. */
  function Claimed(row: Row): Row {
    if Claimable(row) then row.(status := InProgress) else row
  }

  /** The two marks look only at the id, never at the current status. */
  function MarkedDelivered(row: Row): Row {
    row.(status := Delivered)
  }

  function MarkedFailed(row: Row, attemptCount: int, nextRetryAt: Option<Time>): Row {
    row.(status := if nextRetryAt.Some? then Failed else PermanentlyFailed,
         attemptCount := attemptCount,
         nextRetryAt := nextRetryAt)
  }

  predicate Due(row: Row, now: Time) {
    || row.status == Pending
    || (row.status == Failed && row.nextRetryAt.Some? && row.nextRetryAt.value <= now)
  }

  /** What the retry worker keeps of a row it has read. */
  datatype Entry = Entry(id: DeliveryId, webhook: WebhookId, parses: bool, attemptCount: int)

  function EntryOf(log: Log, id: DeliveryId): Entry
    requires id in log
  {
    Entry(id, log[id].webhook, log[id].parses, log[id].attemptCount)
  }

  predicate DistinctIds(entries: seq<Entry>) {
    forall i, j :: 0 <= i < j < |entries| ==> entries[i].id != entries[j].id
  }

  ghost predicate Contains(entries: seq<Entry>, id: DeliveryId) {
    exists i :: 0 <= i < |entries| && entries[i].id == id
  }

  /**
   The answers the pending query may give: due rows only, each once, oldest first, at most
   RETRY_BATCH of them, and none left out unless the batch is full of rows at least as old.
   Rows created at the same time come in any order.
   */
  ghost predicate IsPendingBatch(log: Log, now: Time, batch: seq<Entry>) {
    && |batch| <= RETRY_BATCH
    && DistinctIds(batch)
    && (forall i :: 0 <= i < |batch| ==>
          batch[i].id in log && Due(log[batch[i].id], now) && batch[i] == EntryOf(log, batch[i].id))
    && (forall i, j :: 0 <= i < j < |batch| ==> log[batch[i].id].createdAt <= log[batch[j].id].createdAt)
    && (forall id :: id in log && Due(log[id], now) && !Contains(batch, id) ==>
          |batch| == RETRY_BATCH && forall i :: 0 <= i < |batch| ==> log[batch[i].id].createdAt <= log[id].createdAt)
  }

  /** A row a pass at `now` has to read: it is pending, or failed and its retry time has come. */
  lemma {:induction false} BatchReadsWhatIsDue(log: Log, now: Time, batch: seq<Entry>, id: DeliveryId)
    requires IsPendingBatch(log, now, batch) && id in log
    ensures var row := log[id];
      var due := row.status == Pending
              || (row.status == Failed && row.nextRetryAt.Some? && row.nextRetryAt.value <= now);
      && |batch| <= 100
      && (Contains(batch, id) ==> due)
      && (due && |batch| < 100 ==> Contains(batch, id))
      && (due && !Contains(batch, id) ==>
            forall i :: 0 <= i < |batch| ==> batch[i].id in log && log[batch[i].id].createdAt <= row.createdAt)
  {
  }

  // ----- One delivery attempt -----

  /** The retry time after failed attempt `attempt`: 1 s, then 5 s, then never. */
  function NextRetryAfter(attempt: int, now: Time): Option<Time> {
    if attempt >= MAX_ATTEMPTS then None
    else if attempt == 1 then Some(now + 1)
    else if attempt == 2 then Some(now + 5)
    else Some(now + 30)
  }

  /** What becomes of a failed attempt: a retry 1 s after the first and 5 s after the second, none after the third. */
  lemma {:induction false} BackoffSchedule(row: Row, attempt: int, now: Time, later: Time)
    requires 1 <= attempt <= MAX_ATTEMPTS
    ensures var failed := MarkedFailed(row, attempt, NextRetryAfter(attempt, now));
      && (failed.status == PermanentlyFailed <==> attempt == MAX_ATTEMPTS)
      && (Due(failed, later) <==> (attempt == 1 && later - now >= 1) || (attempt == 2 && later - now >= 5))
  {
  }

  /** Where a running `execute_attempt` call stands. */
  datatype Attempt =
    | Claiming(attempt: int)
    | Posting(attempt: int)             // the claim was won and the POST is in flight
    | Answered(attempt: int, ok: bool)  // the POST is over, the row is not marked yet
    | Alerting                          // the last failure is marked, the alert is not written yet
    | Finished

  /** What happens to it next. A false `dbOk` is a database call that returns an error. */
  datatype Event =
    | Claim(dbOk: bool)
    | Respond(ok: bool)
    | Mark(dbOk: bool, now: Time)
    | Alert(dbOk: bool)

  predicate Accepts(attempt: Attempt, event: Event) {
    match attempt
    case Claiming(_) => event.Claim?
    case Posting(_) => event.Respond?
    case Answered(_, _) => event.Mark?
    case Alerting => event.Alert?
    case Finished => false
  }

  function NextAttempt(row: Row, attempt: Attempt, event: Event): Attempt
    requires Accepts(attempt, event)
  {
    match attempt
    case Claiming(n) => if event.dbOk && Claimable(row) then Posting(n) else Finished
    case Posting(n) => Answered(n, event.ok)
    case Answered(n, ok) => if !ok && NextRetryAfter(n, event.now).None? then Alerting else Finished
    case Alerting => Finished
  }

  function NextRow(row: Row, attempt: Attempt, event: Event): Row
    requires Accepts(attempt, event)
  {
    match attempt
    case Claiming(_) => if event.dbOk then Claimed(row) else row
    case Answered(n, ok) =>
      if !event.dbOk then row
      else if ok then MarkedDelivered(row)
      else MarkedFailed(row, n, NextRetryAfter(n, event.now))
    case _ => row
  }

  predicate Holds(attempt: Attempt) {
    attempt.Posting? || attempt.Answered?
  }
}
