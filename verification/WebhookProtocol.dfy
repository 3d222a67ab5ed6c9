/**
 The webhook delivery protocol as a state machine: one spawned task per delivery, one retry worker
 that works through a snapshot, webhook registration and deletion, and process restarts, interleaved
 in any order (backend/src/webhook_dispatch.rs, backend/src/webhook_retry_worker.rs).
 */
module WebhookProtocol {
  import opened Wrappers
  import opened DeliveryLog

  datatype WorkerStep =
    | Lookup          // about to look the webhook up
    | Condemning      // webhook gone or payload unreadable: about to mark the row permanently failed
    | Running(attempt: Attempt)

  datatype Worker =
    | Asleep
    | Pass(queue: seq<Entry>, step: WorkerStep)

  /**
   `tasks`, `worker` live in the process; `log`, `live`, `alerts` in the database. The rest is
   history: `registered` are all webhooks there ever were, `posts` counts the POSTs started,
   `succeeded` holds the deliveries with a POST that returned Ok, and `early` those the worker read
   before their own task had tried its claim.
   */
  datatype State = State(
    log: Log,
    live: set<WebhookId>,
    registered: set<WebhookId>,
    tasks: map<DeliveryId, Attempt>,
    worker: Worker,
    alerts: multiset<DeliveryId>,
    posts: map<DeliveryId, nat>,
    succeeded: set<DeliveryId>,
    early: set<DeliveryId>)

  const INIT := State(map[], {}, {}, map[], Asleep, multiset{}, map[], {}, {})

  datatype Action =
    | Register(webhook: WebhookId)
    | Delete(webhook: WebhookId)
    | Dispatch(id: DeliveryId, webhook: WebhookId, parses: bool, now: Time)
    | TaskStep(id: DeliveryId, event: Event)
    | Wake(now: Time, batch: seq<Entry>)
    | LookUp(dbOk: bool)
    | Condemn(dbOk: bool)
    | WorkerStep(event: Event)
    | Restart

  // ----- What one delivery sees of the state -----

  /**
   `running` is the worker's own attempt when the delivery is at the head of its queue, `waiting`
   the attempt count the worker has read while it has neither won nor lost a claim for it yet.
   */
  datatype View = View(
    row: Row,
    task: Option<Attempt>,
    running: Option<Attempt>,
    waiting: Option<int>,
    alerts: nat,
    posts: nat,
    succeeded: bool,
    early: bool)
  {
    predicate TaskHolds() { task.Some? && Holds(task.value) }

    predicate WorkerHolds() { running.Some? && Holds(running.value) }

    predicate Held() { TaskHolds() || WorkerHolds() }

    /** The number of POSTs of this delivery that are in flight. */
    function InFlight(): nat {
      (if task.Some? && task.value.Posting? then 1 else 0) + (if running.Some? && running.value.Posting? then 1 else 0)
    }

    /** The spawned task has not tried its claim yet. */
    predicate Unspent() { task.Some? && task.value.Claiming? }

    /** The alert is written or about to be. */
    predicate Retired() { alerts > 0 || (running.Some? && running.value.Alerting?) }

    /**
     How far `attempt_count` may lag behind the number of POSTs. It lags only once the spawned task,
     which always counts its own POST as the first, has run behind a worker that got there earlier.
     */
    function Slack(): nat { if early && !Unspent() then MAX_ATTEMPTS - 1 else 0 }

    /** The greatest number of POSTs the delivery can ever see. */
    function PostLimit(): nat { if early then 2 * MAX_ATTEMPTS - 1 else MAX_ATTEMPTS }
  }

  function CountRead(queue: seq<Entry>, id: DeliveryId): Option<int> {
    if queue == [] then None
    else if queue[0].id == id then Some(queue[0].attemptCount)
    else CountRead(queue[1..], id)
  }

  /** The entries of the worker's snapshot for which it has neither won nor lost a claim yet. */
  function Waiting(w: Worker): seq<Entry> {
    if w.Asleep? || w.queue == [] then []
    else if w.step.Running? && !w.step.attempt.Claiming? then w.queue[1..]
    else w.queue
  }

  function Posts(s: State, id: DeliveryId): nat {
    if id in s.posts then s.posts[id] else 0
  }

  function ViewOf(s: State, id: DeliveryId): View
    requires id in s.log
  {
    View(s.log[id],
         if id in s.tasks then Some(s.tasks[id]) else None,
         if s.worker.Pass? && s.worker.queue != [] && s.worker.queue[0].id == id && s.worker.step.Running?
           then Some(s.worker.step.attempt) else None,
         CountRead(Waiting(s.worker), id),
         s.alerts[id],
         Posts(s, id),
         id in s.succeeded,
         id in s.early)
  }

  // ----- Steps -----

  function NextInQueue(queue: seq<Entry>): Worker {
    if |queue| <= 1 then Asleep else Pass(queue[1..], Lookup)
  }

  function AfterAttempt(queue: seq<Entry>, attempt: Attempt): Worker {
    if attempt.Finished? then NextInQueue(queue) else Pass(queue, Running(attempt))
  }

  /** An event of an attempt on the delivery: a won claim starts a POST, an Ok answer is a success. */
  function Recorded(s: State, id: DeliveryId, attempt: Attempt, event: Event): State
    requires id in s.log && Accepts(attempt, event)
  {
    s.(log := s.log[id := NextRow(s.log[id], attempt, event)],
       posts := if NextAttempt(s.log[id], attempt, event).Posting?
                then s.posts[id := Posts(s, id) + 1] else s.posts,
       succeeded := if event.Respond? && event.ok then s.succeeded + {id} else s.succeeded,
       alerts := if event.Alert? && event.dbOk then s.alerts + multiset{id} else s.alerts)
  }

  ghost predicate Enabled(s: State, a: Action) {
    match a
    case Register(w) => w !in s.registered
    case Delete(_) => true
    case Dispatch(id, w, _, _) => id !in s.log && w in s.registered
    case TaskStep(id, event) => id in s.tasks && id in s.log && Accepts(s.tasks[id], event)
    case Wake(now, batch) => s.worker.Asleep? && IsPendingBatch(s.log, now, batch)
    case LookUp(_) => s.worker.Pass? && s.worker.queue != [] && s.worker.step.Lookup?
    case Condemn(_) =>
      s.worker.Pass? && s.worker.queue != [] && s.worker.queue[0].id in s.log && s.worker.step.Condemning?
    case WorkerStep(event) =>
      && s.worker.Pass? && s.worker.queue != [] && s.worker.queue[0].id in s.log
      && s.worker.step.Running? && Accepts(s.worker.step.attempt, event)
    case Restart => true
  }

  ghost function Apply(s: State, a: Action): State
    requires Enabled(s, a)
  {
    match a
    case Register(w) => s.(live := s.live + {w}, registered := s.registered + {w})
    case Delete(w) => s.(live := s.live - {w})
    case Dispatch(id, w, parses, now) =>
      s.(log := s.log[id := NewRow(w, parses, now)], tasks := s.tasks[id := Claiming(1)])
    case TaskStep(id, event) =>
      Recorded(s, id, s.tasks[id], event).(tasks := s.tasks[id := NextAttempt(s.log[id], s.tasks[id], event)])
    case Wake(_, batch) =>
      s.(worker := if batch == [] then Asleep else Pass(batch, Lookup),
         early := s.early
           + set i | 0 <= i < |batch| && batch[i].id in s.tasks && s.tasks[batch[i].id].Claiming? :: batch[i].id)
    case LookUp(dbOk) =>
      var entry := s.worker.queue[0];
      s.(worker :=
        if !dbOk then NextInQueue(s.worker.queue)
        else if entry.webhook !in s.live || !entry.parses then Pass(s.worker.queue, Condemning)
        else Pass(s.worker.queue, Running(Claiming(entry.attemptCount + 1))))
    case Condemn(dbOk) =>
      var entry := s.worker.queue[0];
      s.(log := if dbOk then s.log[entry.id := MarkedFailed(s.log[entry.id], entry.attemptCount + 1, None)] else s.log,
         worker := NextInQueue(s.worker.queue))
    case WorkerStep(event) =>
      var entry, attempt := s.worker.queue[0], s.worker.step.attempt;
      Recorded(s, entry.id, attempt, event).(
        worker := AfterAttempt(s.worker.queue, NextAttempt(s.log[entry.id], attempt, event)))
    case Restart => s.(tasks := map[], worker := Asleep)
  }

  /** `acts` can be taken one after the other from `s`. */
  ghost predicate ValidRun(s: State, acts: seq<Action>)
    decreases |acts|
  {
    acts == [] || (Enabled(s, acts[0]) && ValidRun(Apply(s, acts[0]), acts[1..]))
  }

  ghost function After(s: State, acts: seq<Action>): State
    requires ValidRun(s, acts)
    decreases |acts|
  {
    if acts == [] then s else After(Apply(s, acts[0]), acts[1..])
  }

  // ----- The inductive invariant -----

  predicate WellFormed(s: State) {
    && s.live <= s.registered
    && s.tasks.Keys <= s.log.Keys
    && s.posts.Keys <= s.log.Keys
    && s.succeeded <= s.log.Keys
    && s.early <= s.log.Keys
    && (forall id :: id in s.log ==> s.log[id].webhook in s.registered)
    && (forall id :: id in s.alerts ==> id in s.log)
    && (s.worker.Pass? ==> WellFormedPass(s.log, s.worker.queue))
  }

  predicate WellFormedPass(log: Log, queue: seq<Entry>) {
    && queue != []
    && DistinctIds(queue)
    && (forall i :: 0 <= i < |queue| ==>
          && queue[i].id in log
          && queue[i].webhook == log[queue[i].id].webhook && queue[i].parses == log[queue[i].id].parses)
  }

  predicate SaneAttempt(attempt: Attempt) {
    attempt.Alerting? || attempt.Finished? || 1 <= attempt.attempt <= MAX_ATTEMPTS
  }

  /** A delivery has at most one holder, and a holder keeps its row from being claimed again. */
  predicate Exclusive(v: View) {
    && !(v.TaskHolds() && v.WorkerHolds())
    && (v.Held() ==> v.row.status == InProgress || v.row.status == PermanentlyFailed)
    && (v.WorkerHolds() ==> v.row.status == InProgress)
  }

  predicate Bounded(v: View) {
    && v.posts <= v.PostLimit()
    && (Claimable(v.row) ==> 0 <= v.row.attemptCount < MAX_ATTEMPTS && v.posts <= v.row.attemptCount + v.Slack())
    && (v.row.status == Failed ==> v.row.nextRetryAt.Some?)
    && (v.waiting.Some? ==> 0 <= v.waiting.value < MAX_ATTEMPTS && v.posts <= v.waiting.value + v.Slack())
    && (v.task.Some? ==>
          !v.task.value.Alerting? && (v.task.value.Finished? || v.task.value.attempt == 1))
    && (v.TaskHolds() ==> v.posts <= 1 + v.Slack())
    && (v.running.Some? ==> !v.running.value.Finished? && SaneAttempt(v.running.value))
    && (v.running.Some? && v.running.value.Claiming? ==> v.waiting == Some(v.running.value.attempt - 1))
    && (v.WorkerHolds() ==> v.posts <= v.running.value.attempt + v.Slack())
    && (v.Unspent() && !v.early ==>
          && v.row.status == Pending && v.row.attemptCount == 0 && v.posts == 0
          && v.waiting.None? && v.running.None?)
  }

  /** Neither a success nor an alert is followed by another POST. */
  predicate Final(v: View) {
    && (v.succeeded ==>
          && !Claimable(v.row)
          && (v.TaskHolds() ==> v.task.value.Answered? && v.task.value.ok)
          && (v.WorkerHolds() ==> v.running.value.Answered? && v.running.value.ok))
    && (v.Retired() ==> !Claimable(v.row) && !v.Held())
    && v.alerts <= 1
    && (v.running.Some? && v.running.value.Alerting? ==> v.alerts == 0)
  }

  predicate RowInvariant(v: View) {
    Exclusive(v) && Bounded(v) && Final(v)
  }

  ghost predicate Invariant(s: State) {
    && WellFormed(s)
    && (forall id :: id in s.log ==> RowInvariant(ViewOf(s, id)))
  }

  lemma {:induction false} CountReadOf(queue: seq<Entry>, i: nat)
    requires i < |queue| && DistinctIds(queue)
    ensures CountRead(queue, queue[i].id) == Some(queue[i].attemptCount)
  {
    if i > 0 {
      assert queue[0].id != queue[i].id;
      CountReadOf(queue[1..], i - 1);
    }
  }

  lemma {:induction false} CountReadSome(queue: seq<Entry>, id: DeliveryId)
    ensures CountRead(queue, id).Some? <==> Contains(queue, id)
  {
    if queue != [] && queue[0].id != id {
      CountReadSome(queue[1..], id);
      if Contains(queue, id) {
        var i :| 0 <= i < |queue| && queue[i].id == id;
        assert queue[1..][i - 1].id == id;
      }
    }
  }

  lemma {:induction false} HeadReadOnce(queue: seq<Entry>)
    requires queue != [] && DistinctIds(queue)
    ensures CountRead(queue[1..], queue[0].id).None?
  {
    CountReadSome(queue[1..], queue[0].id);
  }

  // ----- Every step as a move of one delivery -----

  datatype Move =
    | Stay                     // the step is about something else
    | ByTask(event: Event)
    | ByWorker(event: Event)
    | Read                     // the worker reads the row into its snapshot
    | Skip                     // the worker gives the entry up
    | Pick                     // the worker starts an attempt on it
    | Fail(written: bool)      // the worker marks the row permanently failed
    | Forget                   // the process restarts

  predicate CanMove(v: View, m: Move) {
    match m
    case ByTask(event) => v.task.Some? && Accepts(v.task.value, event)
    case ByWorker(event) => v.running.Some? && Accepts(v.running.value, event)
    case Read => Claimable(v.row) && v.waiting.None? && v.running.None?
    case Skip => v.waiting.Some? && v.running.None?
    case Pick => v.waiting.Some? && v.running.None?
    case Fail(_) => v.waiting.Some? && v.running.None?
    case _ => true
  }

  function Observed(v: View, attempt: Attempt, event: Event): View
    requires Accepts(attempt, event)
  {
    v.(row := NextRow(v.row, attempt, event),
       posts := if NextAttempt(v.row, attempt, event).Posting? then v.posts + 1 else v.posts,
       succeeded := v.succeeded || (event.Respond? && event.ok),
       alerts := if event.Alert? && event.dbOk then v.alerts + 1 else v.alerts)
  }

  function Moved(v: View, m: Move): View
    requires CanMove(v, m)
  {
    match m
    case Stay => v
    case ByTask(event) =>
      Observed(v, v.task.value, event).(task := Some(NextAttempt(v.row, v.task.value, event)))
    case ByWorker(event) =>
      var next := NextAttempt(v.row, v.running.value, event);
      Observed(v, v.running.value, event).(running := if next.Finished? then None else Some(next), waiting := None)
    case Read => v.(waiting := Some(v.row.attemptCount), early := v.early || v.Unspent())
    case Skip => v.(waiting := None)
    case Pick => v.(running := Some(Claiming(v.waiting.value + 1)))
    case Fail(written) =>
      v.(waiting := None, row := if written then MarkedFailed(v.row, v.waiting.value + 1, None) else v.row)
    case Forget => v.(task := None, running := None, waiting := None)
  }

  ghost function MoveOf(s: State, a: Action, id: DeliveryId): Move
    requires Enabled(s, a)
  {
    match a
    case TaskStep(i, event) => if i == id then ByTask(event) else Stay
    case WorkerStep(event) => if s.worker.queue[0].id == id then ByWorker(event) else Stay
    case Wake(_, batch) => if Contains(batch, id) then Read else Stay
    case LookUp(_) =>
      if s.worker.queue[0].id != id || Apply(s, a).worker == Pass(s.worker.queue, Condemning) then Stay
      else if Apply(s, a).worker == NextInQueue(s.worker.queue) then Skip else Pick
    case Condemn(dbOk) => if s.worker.queue[0].id == id then Fail(dbOk) else Stay
    case Restart => Forget
    case _ => Stay
  }

  ghost predicate MovesBy(s: State, a: Action, id: DeliveryId)
    requires Enabled(s, a) && id in s.log
  {
    && id in Apply(s, a).log
    && CanMove(ViewOf(s, id), MoveOf(s, a, id))
    && ViewOf(Apply(s, a), id) == Moved(ViewOf(s, id), MoveOf(s, a, id))
  }

  lemma {:induction false} TaskStepMoves(s: State, a: Action, id: DeliveryId)
    requires WellFormed(s) && a.TaskStep? && Enabled(s, a) && id in s.log
    ensures MovesBy(s, a, id)
  {
  }

  lemma {:induction false} HeadStepMoves(s: State, a: Action)
    requires WellFormed(s) && a.WorkerStep? && Enabled(s, a)
    ensures MovesBy(s, a, s.worker.queue[0].id)
  {
    HeadReadOnce(s.worker.queue);
  }

  lemma {:induction false} WorkerStepMoves(s: State, a: Action, id: DeliveryId)
    requires WellFormed(s) && a.WorkerStep? && Enabled(s, a) && id in s.log
    ensures MovesBy(s, a, id)
  {
    if s.worker.queue[0].id == id { HeadStepMoves(s, a); }
  }

  lemma {:induction false} LookUpMoves(s: State, a: Action, id: DeliveryId)
    requires WellFormed(s) && a.LookUp? && Enabled(s, a) && id in s.log
    ensures MovesBy(s, a, id)
  {
    HeadReadOnce(s.worker.queue);
  }

  lemma {:induction false} CondemnMoves(s: State, a: Action, id: DeliveryId)
    requires WellFormed(s) && a.Condemn? && Enabled(s, a) && id in s.log
    ensures MovesBy(s, a, id)
  {
    HeadReadOnce(s.worker.queue);
  }

  lemma {:induction false} BatchReads(log: Log, now: Time, batch: seq<Entry>, id: DeliveryId)
    requires IsPendingBatch(log, now, batch) && id in log
    ensures CountRead(batch, id) == if Contains(batch, id) then Some(log[id].attemptCount) else None
    ensures Contains(batch, id) ==> Claimable(log[id])
  {
    CountReadSome(batch, id);
    if Contains(batch, id) {
      var i :| 0 <= i < |batch| && batch[i].id == id;
      CountReadOf(batch, i);
    }
  }

  lemma {:induction false} WakeMoves(s: State, a: Action, id: DeliveryId)
    requires WellFormed(s) && a.Wake? && Enabled(s, a) && id in s.log
    ensures MovesBy(s, a, id)
  {
    BatchReads(s.log, a.now, a.batch, id);
    assert Waiting(Apply(s, a).worker) == a.batch;
  }

  lemma {:induction false} StepMoves(s: State, a: Action, id: DeliveryId)
    requires WellFormed(s) && Enabled(s, a) && id in s.log
    ensures MovesBy(s, a, id)
  {
    match a
    case TaskStep(_, _) => TaskStepMoves(s, a, id);
    case WorkerStep(_) => WorkerStepMoves(s, a, id);
    case LookUp(_) => LookUpMoves(s, a, id);
    case Condemn(_) => CondemnMoves(s, a, id);
    case Wake(_, _) => WakeMoves(s, a, id);
    case _ =>
  }

  // ----- The invariant holds in every reachable state -----

  lemma {:induction false} TailKeepsForm(log: Log, queue: seq<Entry>)
    requires WellFormedPass(log, queue)
    ensures NextInQueue(queue).Pass? ==> WellFormedPass(log, NextInQueue(queue).queue)
  {
  }

  lemma {:induction false} LogKeepsForm(log: Log, log': Log, queue: seq<Entry>)
    requires WellFormedPass(log, queue)
    requires forall id :: id in log ==>
      id in log' && log'[id].webhook == log[id].webhook && log'[id].parses == log[id].parses
    ensures WellFormedPass(log', queue)
  {
  }

  lemma {:induction false} WorkerKeepsForm(s: State, a: Action)
    requires WellFormed(s) && Enabled(s, a) && a.WorkerStep?
    ensures WellFormed(Apply(s, a))
  {
    LogKeepsForm(s.log, Apply(s, a).log, s.worker.queue);
    TailKeepsForm(Apply(s, a).log, s.worker.queue);
  }

  lemma {:induction false} LookUpKeepsForm(s: State, a: Action)
    requires WellFormed(s) && Enabled(s, a) && a.LookUp?
    ensures WellFormed(Apply(s, a))
  {
    LogKeepsForm(s.log, Apply(s, a).log, s.worker.queue);
    TailKeepsForm(Apply(s, a).log, s.worker.queue);
  }

  lemma {:induction false} CondemnKeepsForm(s: State, a: Action)
    requires WellFormed(s) && Enabled(s, a) && a.Condemn?
    ensures WellFormed(Apply(s, a))
  {
    LogKeepsForm(s.log, Apply(s, a).log, s.worker.queue);
    TailKeepsForm(Apply(s, a).log, s.worker.queue);
  }

  lemma {:induction false} DispatchKeepsForm(s: State, a: Action)
    requires WellFormed(s) && Enabled(s, a) && a.Dispatch?
    ensures WellFormed(Apply(s, a))
  {
    if s.worker.Pass? { LogKeepsForm(s.log, Apply(s, a).log, s.worker.queue); }
  }

  lemma {:induction false} TaskKeepsForm(s: State, a: Action)
    requires WellFormed(s) && Enabled(s, a) && a.TaskStep?
    ensures WellFormed(Apply(s, a))
  {
    if s.worker.Pass? { LogKeepsForm(s.log, Apply(s, a).log, s.worker.queue); }
  }

  lemma {:induction false} StepKeepsForm(s: State, a: Action)
    requires WellFormed(s) && Enabled(s, a)
    ensures WellFormed(Apply(s, a))
  {
    match a
    case Dispatch(_, _, _, _) => DispatchKeepsForm(s, a);
    case TaskStep(_, _) => TaskKeepsForm(s, a);
    case WorkerStep(_) => WorkerKeepsForm(s, a);
    case LookUp(_) => LookUpKeepsForm(s, a);
    case Condemn(_) => CondemnKeepsForm(s, a);
    case _ =>
  }

  lemma {:induction false} MoveKeepsExclusive(v: View, m: Move)
    requires RowInvariant(v) && CanMove(v, m)
    ensures Exclusive(Moved(v, m)) && Final(Moved(v, m))
  {
  }

  lemma {:induction false} TaskMoveKeepsBounded(v: View, event: Event)
    requires RowInvariant(v) && CanMove(v, ByTask(event))
    ensures Bounded(Moved(v, ByTask(event)))
  {
  }

  lemma {:induction false} WorkerMoveKeepsBounded(v: View, event: Event)
    requires RowInvariant(v) && CanMove(v, ByWorker(event))
    ensures Bounded(Moved(v, ByWorker(event)))
  {
  }

  lemma {:induction false} ReadKeepsBounded(v: View)
    requires RowInvariant(v) && CanMove(v, Read)
    ensures Bounded(Moved(v, Read))
  {
  }

  lemma {:induction false} MoveKeepsBounded(v: View, m: Move)
    requires RowInvariant(v) && CanMove(v, m)
    ensures Bounded(Moved(v, m))
  {
    match m
    case ByTask(event) => TaskMoveKeepsBounded(v, event);
    case ByWorker(event) => WorkerMoveKeepsBounded(v, event);
    case Read => ReadKeepsBounded(v);
    case _ =>
  }

  lemma {:induction false} DispatchedRow(s: State, a: Action, id: DeliveryId)
    requires WellFormed(s) && Enabled(s, a) && id in Apply(s, a).log && id !in s.log
    ensures RowInvariant(ViewOf(Apply(s, a), id))
  {
    CountReadSome(Waiting(s.worker), id);
    assert ViewOf(Apply(s, a), id) == View(Apply(s, a).log[id], Some(Claiming(1)), None, None, 0, 0, false, false);
  }

  lemma {:induction false} RowStepKeeps(s: State, a: Action, id: DeliveryId)
    requires WellFormed(s) && Enabled(s, a) && id in Apply(s, a).log
    requires id in s.log ==> RowInvariant(ViewOf(s, id))
    ensures RowInvariant(ViewOf(Apply(s, a), id))
  {
    if id in s.log {
      StepMoves(s, a, id);
      MoveKeepsExclusive(ViewOf(s, id), MoveOf(s, a, id));
      MoveKeepsBounded(ViewOf(s, id), MoveOf(s, a, id));
    } else {
      DispatchedRow(s, a, id);
    }
  }

  lemma {:induction false} StepKeeps(s: State, a: Action)
    requires Invariant(s) && Enabled(s, a)
    ensures Invariant(Apply(s, a))
  {
    StepKeepsForm(s, a);
    forall id | id in Apply(s, a).log ensures RowInvariant(ViewOf(Apply(s, a), id)) {
      RowStepKeeps(s, a, id);
    }
  }

  lemma {:induction false} RunKeeps(s: State, acts: seq<Action>)
    requires Invariant(s) && ValidRun(s, acts)
    ensures Invariant(After(s, acts))
    decreases |acts|
  {
    if acts != [] {
      StepKeeps(s, acts[0]);
      RunKeeps(Apply(s, acts[0]), acts[1..]);
    }
  }

  lemma {:induction false} Prepend(s: State, a: Action, rest: seq<Action>)
    requires Enabled(s, a) && ValidRun(Apply(s, a), rest)
    ensures ValidRun(s, [a] + rest) && After(s, [a] + rest) == After(Apply(s, a), rest)
  {
    assert ([a] + rest)[1..] == rest;
  }

  lemma {:induction false} RunConcat(s: State, first: seq<Action>, second: seq<Action>)
    requires ValidRun(s, first) && ValidRun(After(s, first), second)
    ensures ValidRun(s, first + second) && After(s, first + second) == After(After(s, first), second)
    decreases |first|
  {
    if first == [] {
      assert first + second == second;
    } else {
      RunConcat(Apply(s, first[0]), first[1..], second);
      assert (first + second)[1..] == first[1..] + second;
    }
  }

  ghost predicate Reaches(s: State, s': State) {
    exists acts :: ValidRun(s, acts) && After(s, acts) == s'
  }

  lemma {:induction false} ReachesItself(s: State)
    ensures Reaches(s, s)
  {
    assert ValidRun(s, []) && After(s, []) == s;
  }

  lemma {:induction false} ReachesNext(s: State, s': State, a: Action)
    requires Reaches(s, s') && Enabled(s', a)
    ensures Reaches(s, Apply(s', a))
  {
    var acts :| ValidRun(s, acts) && After(s, acts) == s';
    Prepend(s', a, []);
    RunConcat(s, acts, [a]);
  }

  // ----- Properties that no step can end -----

  /** `p` survives every move of a delivery, or every move but Fail if `calm`. */
  ghost predicate Lasting(p: View -> bool, calm: bool) {
    forall v, m :: RowInvariant(v) && p(v) && CanMove(v, m) && !(calm && m.Fail?) ==> p(Moved(v, m))
  }

  /** All webhooks are still there and all stored payloads parse. */
  predicate Calm(s: State) {
    && s.live == s.registered
    && (forall id :: id in s.log ==> s.log[id].parses)
    && !(s.worker.Pass? && s.worker.step.Condemning?)
  }

  predicate CalmAction(a: Action) {
    !a.Delete? && (a.Dispatch? ==> a.parses)
  }

  predicate CalmActions(acts: seq<Action>) {
    forall i :: 0 <= i < |acts| ==> CalmAction(acts[i])
  }

  lemma {:induction false} PayloadsStay(s: State, a: Action)
    requires Enabled(s, a) && CalmAction(a) && forall id :: id in s.log ==> s.log[id].parses
    ensures forall id :: id in Apply(s, a).log ==> Apply(s, a).log[id].parses
  {
  }

  lemma {:induction false} CalmLookUp(s: State, dbOk: bool)
    requires WellFormed(s) && Calm(s) && Enabled(s, LookUp(dbOk))
    ensures Calm(Apply(s, LookUp(dbOk)))
  {
    var entry := s.worker.queue[0];
    assert entry.webhook in s.live && entry.parses;
  }

  lemma {:induction false} CalmStep(s: State, a: Action, id: DeliveryId)
    requires WellFormed(s) && Calm(s) && Enabled(s, a) && CalmAction(a)
    ensures Calm(Apply(s, a)) && !MoveOf(s, a, id).Fail?
  {
    if a.LookUp? {
      CalmLookUp(s, a.dbOk);
    } else {
      PayloadsStay(s, a);
    }
  }

  lemma {:induction false} LastingHolds(s: State, acts: seq<Action>, id: DeliveryId, p: View -> bool, calm: bool)
    requires Invariant(s) && ValidRun(s, acts) && id in s.log && p(ViewOf(s, id)) && Lasting(p, calm)
    requires calm ==> Calm(s) && CalmActions(acts)
    ensures id in After(s, acts).log && p(ViewOf(After(s, acts), id))
    ensures calm ==> Calm(After(s, acts))
    decreases |acts|
  {
    if acts != [] {
      if calm { CalmStep(s, acts[0], id); }
      StepKeeps(s, acts[0]);
      StepMoves(s, acts[0], id);
      assert RowInvariant(ViewOf(s, id));
      LastingHolds(Apply(s, acts[0]), acts[1..], id, p, calm);
    }
  }
}
