/** What the webhook delivery protocol guarantees over whole runs, and where its promises end. */
module WebhookSafety {
  import opened Wrappers
  import opened DeliveryLog
  import opened WebhookProtocol

  lemma {:induction false} InitInvariant()
    ensures Invariant(INIT) && Calm(INIT)
  {
  }

  // ----- Mutual exclusion and bounds -----

  /**
   However the tasks, the worker, deletions and restarts interleave, a delivery never has two POSTs in
   flight, and one with a POST in flight or unanswered cannot be claimed.
   */
  lemma {:induction false} NoTwoPostsInFlight(acts: seq<Action>, id: DeliveryId)
    requires ValidRun(INIT, acts) && id in After(INIT, acts).log
    ensures var v := ViewOf(After(INIT, acts), id);
      && v.InFlight() <= 1
      && (v.Held() ==> v.row.status == InProgress || v.row.status == PermanentlyFailed)
      && (Claimable(v.row) ==> !v.Held())
  {
    InitInvariant();
    RunKeeps(INIT, acts);
    assert RowInvariant(ViewOf(After(INIT, acts), id));
  }

  /**
   At most 2 * MAX_ATTEMPTS - 1 POSTs in any run, and at most MAX_ATTEMPTS if the spawned task tried its
   claim before the worker first read the row.
   */
  lemma {:induction false} PostsAreBounded(acts: seq<Action>, id: DeliveryId)
    requires ValidRun(INIT, acts)
    ensures var s := After(INIT, acts);
      Posts(s, id) <= if id in s.early then 2 * MAX_ATTEMPTS - 1 else MAX_ATTEMPTS
  {
    InitInvariant();
    RunKeeps(INIT, acts);
    if id in After(INIT, acts).log { assert RowInvariant(ViewOf(After(INIT, acts), id)); }
  }

  lemma {:induction false} AtMostOneAlert(acts: seq<Action>, id: DeliveryId)
    requires ValidRun(INIT, acts)
    ensures After(INIT, acts).alerts[id] <= 1
  {
    InitInvariant();
    RunKeeps(INIT, acts);
    var s := After(INIT, acts);
    if id in s.alerts { assert RowInvariant(ViewOf(s, id)); }
  }

  // ----- The last POST -----

  ghost function SucceededAfter(n: nat): View -> bool {
    (v: View) => v.succeeded && v.posts == n
  }

  ghost function AlertedAfter(n: nat): View -> bool {
    (v: View) => v.alerts > 0 && v.posts == n
  }

  ghost function StrandedAt(row: Row, n: nat): View -> bool {
    (v: View) =>
      v.row == row && v.row.status == InProgress && v.posts == n && v.task.None? && v.running.None? && v.waiting.None?
  }

  lemma {:induction false} OnlyClaimablePosts(v: View, m: Move)
    requires CanMove(v, m) && Moved(v, m).posts != v.posts
    ensures Claimable(v.row)
  {
  }

  lemma {:induction false} SuccessLasts(n: nat)
    ensures Lasting(SucceededAfter(n), false)
  {
    forall v, m | RowInvariant(v) && v.succeeded && v.posts == n && CanMove(v, m)
      ensures SucceededAfter(n)(Moved(v, m))
    {
      if Moved(v, m).posts != n { OnlyClaimablePosts(v, m); }
    }
  }

  lemma {:induction false} AlertLasts(n: nat)
    ensures Lasting(AlertedAfter(n), false)
  {
    forall v, m | RowInvariant(v) && v.alerts > 0 && v.posts == n && CanMove(v, m)
      ensures AlertedAfter(n)(Moved(v, m))
    {
      if Moved(v, m).posts != n { OnlyClaimablePosts(v, m); }
    }
  }

  lemma {:induction false} StrandedLasts(row: Row, n: nat)
    ensures Lasting(StrandedAt(row, n), false)
  {
  }

  /** After a POST that returned Ok the delivery is never POSTed again, whatever happens next. */
  lemma {:induction false} NoPostAfterSuccess(s: State, acts: seq<Action>, id: DeliveryId)
    requires Invariant(s) && id in s.succeeded && ValidRun(s, acts)
    ensures Posts(After(s, acts), id) == Posts(s, id)
  {
    var n := Posts(s, id);
    SuccessLasts(n);
    LastingHolds(s, acts, id, SucceededAfter(n), false);
  }

  /** Nor is it after its alert was written. */
  lemma {:induction false} NoPostAfterAlert(s: State, acts: seq<Action>, id: DeliveryId)
    requires Invariant(s) && id in s.alerts && ValidRun(s, acts)
    ensures Posts(After(s, acts), id) == Posts(s, id)
  {
    var n := Posts(s, id);
    AlertLasts(n);
    LastingHolds(s, acts, id, AlertedAfter(n), false);
  }

  /**
   A restart strands every delivery that is in progress: its row never changes again, so it is neither
   delivered nor retried nor listed as failed.
   */
  lemma {:induction false} RestartStrands(s: State, acts: seq<Action>, id: DeliveryId)
    requires Invariant(s) && id in s.log && s.log[id].status == InProgress
    requires ValidRun(Apply(s, Restart), acts)
    ensures var s' := After(Apply(s, Restart), acts);
      id in s'.log && s'.log[id] == s.log[id] && Posts(s', id) == Posts(s, id)
  {
    var row, n, s0 := s.log[id], Posts(s, id), Apply(s, Restart);
    StepKeeps(s, Restart);
    StrandedLasts(row, n);
    LastingHolds(s0, acts, id, StrandedAt(row, n), false);
  }

  // ----- Terminal rows -----

  predicate Terminal(row: Row) {
    row.status == Delivered || row.status == PermanentlyFailed
  }

  ghost function TerminalAt(row: Row): View -> bool {
    (v: View) => v.row == row && Terminal(v.row) && !v.Held()
  }

  ghost function HeldInProgress(): View -> bool {
    (v: View) => v.Held() ==> v.row.status == InProgress
  }

  lemma {:induction false} TerminalLasts(row: Row)
    ensures Lasting(TerminalAt(row), true)
  {
    forall v, m | RowInvariant(v) && TerminalAt(row)(v) && CanMove(v, m) && !m.Fail?
      ensures TerminalAt(row)(Moved(v, m))
    {
    }
  }

  lemma {:induction false} HeldInProgressLasts()
    ensures Lasting(HeldInProgress(), true)
  {
    forall v, m | RowInvariant(v) && HeldInProgress()(v) && CanMove(v, m) && !m.Fail?
      ensures HeldInProgress()(Moved(v, m))
    {
    }
  }

  /** Without deletions and with payloads that parse, a terminal row stays as it is. */
  lemma {:induction false} TerminalRowsLast(before: seq<Action>, after: seq<Action>, id: DeliveryId)
    requires ValidRun(INIT, before) && ValidRun(After(INIT, before), after)
    requires CalmActions(before) && CalmActions(after)
    requires id in After(INIT, before).log && Terminal(After(INIT, before).log[id])
    ensures var s' := After(After(INIT, before), after);
      id in s'.log && s'.log[id] == After(INIT, before).log[id]
  {
    InitInvariant();
    RunKeeps(INIT, before);
    HeldRowsInProgress(INIT, before, id);
    var row := After(INIT, before).log[id];
    TerminalLasts(row);
    LastingHolds(After(INIT, before), after, id, TerminalAt(row), true);
  }

  lemma {:induction false} HeldRowsInProgress(s: State, acts: seq<Action>, id: DeliveryId)
    requires Invariant(s) && Calm(s) && ValidRun(s, acts) && CalmActions(acts) && id in After(s, acts).log
    requires id in s.log ==> HeldInProgress()(ViewOf(s, id))
    ensures Calm(After(s, acts)) && HeldInProgress()(ViewOf(After(s, acts), id))
    decreases |acts|
  {
    if id in s.log {
      HeldInProgressLasts();
      LastingHolds(s, acts, id, HeldInProgress(), true);
    } else if acts != [] {
      CalmStep(s, acts[0], id);
      StepKeeps(s, acts[0]);
      HeldRowsInProgress(Apply(s, acts[0]), acts[1..], id);
    }
  }

  // ----- When a delivered row can still be lost -----

  /** The worker has read the row, and has not started an attempt on it yet. */
  predicate StaleRead(v: View) {
    v.waiting.Some? && v.running.None?
  }

  ghost function SettledAt(row: Row): View -> bool {
    (v: View) => v.row == row && row.status == Delivered && !StaleRead(v)
  }

  lemma {:induction false} SettledLasts(row: Row)
    ensures Lasting(SettledAt(row), false)
  {
    forall v, m | RowInvariant(v) && SettledAt(row)(v) && CanMove(v, m)
      ensures SettledAt(row)(Moved(v, m))
    {
    }
  }

  /**
   A delivered row stays delivered in every continuation if and only if no stale read of it is pending:
   the unguarded mark of a worker that finds the webhook deleted overwrites `delivered`.
   */
  lemma {:induction false} DeliveredIsFinal(s: State, id: DeliveryId)
    requires Invariant(s) && id in s.log && s.log[id].status == Delivered
    ensures !StaleRead(ViewOf(s, id)) <==>
      forall acts :: ValidRun(s, acts) ==> id in After(s, acts).log && After(s, acts).log[id] == s.log[id]
  {
    if StaleRead(ViewOf(s, id)) {
      var acts := LosingRun(s, id);
      assert After(s, acts).log[id] != s.log[id];
    } else {
      forall acts | ValidRun(s, acts) ensures id in After(s, acts).log && After(s, acts).log[id] == s.log[id] {
        SettledLasts(s.log[id]);
        LastingHolds(s, acts, id, SettledAt(s.log[id]), false);
      }
    }
  }

  /** A next step of the worker, with every database call failing, that leaves all rows as they are. */
  function GiveUp(w: Worker): Action
    requires w.Pass?
  {
    match w.step
    case Lookup => LookUp(false)
    case Condemning => Condemn(false)
    case Running(attempt) =>
      WorkerStep(match attempt
                 case Posting(_) => Respond(true)
                 case Answered(_, _) => Mark(false, 0)
                 case Alerting => Alert(false)
                 case _ => Claim(false))
  }

  function StepsLeft(w: Worker): nat {
    if w.Asleep? then 0 else 4 * |w.queue| + (if w.step.Running? then AttemptStepsLeft(w.step.attempt) else 0)
  }

  function AttemptStepsLeft(attempt: Attempt): nat {
    match attempt
    case Posting(_) => 2
    case Answered(_, _) => 1
    case _ => 0
  }

  lemma {:induction false} GiveUpStep(s: State, id: DeliveryId)
    requires Invariant(s) && id in s.log && StaleRead(ViewOf(s, id)) && s.worker.queue[0].id != id
    ensures Enabled(s, GiveUp(s.worker)) && id in Apply(s, GiveUp(s.worker)).log
    ensures ViewOf(Apply(s, GiveUp(s.worker)), id) == ViewOf(s, id)
    ensures StepsLeft(Apply(s, GiveUp(s.worker)).worker) < StepsLeft(s.worker)
  {
    assert RowInvariant(ViewOf(s, s.worker.queue[0].id));
    StepMoves(s, GiveUp(s.worker), id);
  }

  lemma {:induction false} CondemningRun(s: State, id: DeliveryId) returns (acts: seq<Action>)
    requires Invariant(s) && id in s.log && StaleRead(ViewOf(s, id)) && s.worker.queue[0].id == id
    ensures ValidRun(s, acts) && id in After(s, acts).log && After(s, acts).log[id].status == PermanentlyFailed
  {
    if s.worker.step.Condemning? {
      acts := [Condemn(true)];
      Prepend(s, Condemn(true), []);
    } else {
      var s1 := Apply(s, Delete(s.log[id].webhook));
      var s2 := Apply(s1, LookUp(true));
      assert s2.worker == Pass(s.worker.queue, Condemning);
      Prepend(s2, Condemn(true), []);
      Prepend(s1, LookUp(true), [Condemn(true)]);
      Prepend(s, Delete(s.log[id].webhook), [LookUp(true)] + [Condemn(true)]);
      acts := [Delete(s.log[id].webhook)] + ([LookUp(true)] + [Condemn(true)]);
    }
  }

  lemma {:induction false} LosingRun(s: State, id: DeliveryId) returns (acts: seq<Action>)
    requires Invariant(s) && id in s.log && StaleRead(ViewOf(s, id))
    ensures ValidRun(s, acts) && id in After(s, acts).log && After(s, acts).log[id].status == PermanentlyFailed
    decreases StepsLeft(s.worker)
  {
    if s.worker.queue[0].id == id {
      acts := CondemningRun(s, id);
    } else {
      GiveUpStep(s, id);
      StepKeeps(s, GiveUp(s.worker));
      var rest := LosingRun(Apply(s, GiveUp(s.worker)), id);
      Prepend(s, GiveUp(s.worker), rest);
      acts := [GiveUp(s.worker)] + rest;
    }
  }

  // ----- When a permanently failed row can still be revived -----

  ghost function AbandonedRow(): View -> bool {
    (v: View) => v.row.status == PermanentlyFailed && !v.Held()
  }

  lemma {:induction false} AbandonedLasts()
    ensures Lasting(AbandonedRow(), false)
  {
    forall v, m | RowInvariant(v) && AbandonedRow()(v) && CanMove(v, m)
      ensures AbandonedRow()(Moved(v, m))
    {
    }
  }

  /** The task's POST is answered, if it is still in flight, and its mark overwrites the row. */
  lemma {:induction false} RevivingRun(s: State, id: DeliveryId) returns (acts: seq<Action>)
    requires Invariant(s) && id in s.log && s.log[id].status == PermanentlyFailed && ViewOf(s, id).Held()
    ensures ValidRun(s, acts) && id in After(s, acts).log && After(s, acts).log[id].status != PermanentlyFailed
  {
    assert RowInvariant(ViewOf(s, id));
    if s.tasks[id].Answered? {
      acts := [TaskStep(id, Mark(true, 0))];
      Prepend(s, acts[0], []);
    } else {
      var s1 := Apply(s, TaskStep(id, Respond(true)));
      Prepend(s1, TaskStep(id, Mark(true, 0)), []);
      Prepend(s, TaskStep(id, Respond(true)), [TaskStep(id, Mark(true, 0))]);
      acts := [TaskStep(id, Respond(true))] + [TaskStep(id, Mark(true, 0))];
    }
  }

  /**
   A permanently failed row stays permanently failed in every continuation if and only if no attempt holds it: the
   worker may condemn a row while the POST of its task is in flight, and the task then marks it by its answer.
   */
  lemma {:induction false} PermanentlyFailedIsFinal(s: State, id: DeliveryId)
    requires Invariant(s) && id in s.log && s.log[id].status == PermanentlyFailed
    ensures !ViewOf(s, id).Held() <==>
      forall acts :: ValidRun(s, acts) ==>
        id in After(s, acts).log && After(s, acts).log[id].status == PermanentlyFailed
  {
    if ViewOf(s, id).Held() {
      var acts := RevivingRun(s, id);
      assert After(s, acts).log[id].status != PermanentlyFailed;
    } else {
      forall acts | ValidRun(s, acts)
        ensures id in After(s, acts).log && After(s, acts).log[id].status == PermanentlyFailed
      {
        AbandonedLasts();
        LastingHolds(s, acts, id, AbandonedRow(), false);
      }
    }
  }

  // ----- The bound on POSTs is reached -----

  /** A state with one delivery, number 0, of webhook 0, and the worker asleep. */
  function Solo(row: Row, task: Attempt, posts: map<DeliveryId, nat>, early: set<DeliveryId>): State {
    State(map[0 := row], {0}, {0}, map[0 := task], Asleep, multiset{}, posts, {}, early)
  }

  lemma {:induction false} FreshDispatched() returns (s: State)
    ensures Reaches(INIT, s)
    ensures s == Solo(NewRow(0, true, 0), Claiming(1), map[], {})
  {
    ReachesItself(INIT);
    ReachesNext(INIT, INIT, Register(0));
    s := Apply(INIT, Register(0));
    ReachesNext(INIT, s, Dispatch(0, 0, true, 0));
    s := Apply(s, Dispatch(0, 0, true, 0));
  }

  lemma {:induction false} WorkerPicks(
      row: Row, task: Attempt, posts: map<DeliveryId, nat>, early: set<DeliveryId>, now: Time)
      returns (s: State)
    requires Reaches(INIT, Solo(row, task, posts, early))
    requires row.webhook == 0 && row.parses && Due(row, now)
    ensures Reaches(INIT, s)
    ensures s == Solo(row, task, posts, if task.Claiming? then early + {0} else early).(
                   worker := Pass([Entry(0, 0, true, row.attemptCount)], Running(Claiming(row.attemptCount + 1))))
  {
    s := Solo(row, task, posts, early);
    var batch := [Entry(0, 0, true, row.attemptCount)];
    assert Contains(batch, 0) by { assert batch[0].id == 0; }
    ReachesNext(INIT, s, Wake(now, batch));
    s := Apply(s, Wake(now, batch));
    assert s.early == if task.Claiming? then early + {0} else early;
    ReachesNext(INIT, s, LookUp(true));
    s := Apply(s, LookUp(true));
  }

  lemma {:induction false} WorkerClaims(
      row: Row, task: Attempt, posts: map<DeliveryId, nat>, early: set<DeliveryId>, now: Time)
      returns (s: State)
    requires Reaches(INIT, Solo(row, task, posts, early))
    requires row.webhook == 0 && row.parses && Due(row, now)
    ensures Reaches(INIT, s)
    ensures s == Solo(Claimed(row), task, posts[0 := (if 0 in posts then posts[0] else 0) + 1],
                      if task.Claiming? then early + {0} else early).(
                        worker := Pass([Entry(0, 0, true, row.attemptCount)], Running(Posting(row.attemptCount + 1))))
  {
    s := WorkerPicks(row, task, posts, early, now);
    ReachesNext(INIT, s, WorkerStep(Claim(true)));
    s := Apply(s, WorkerStep(Claim(true)));
  }

  lemma {:induction false} WorkerHears(
      row: Row, task: Attempt, posts: map<DeliveryId, nat>, early: set<DeliveryId>, queue: seq<Entry>, attempt: int)
      returns (s: State)
    requires queue != [] && queue[0].id == 0
    requires Reaches(INIT, Solo(row, task, posts, early).(worker := Pass(queue, Running(Posting(attempt)))))
    ensures Reaches(INIT, s)
    ensures s == Solo(row, task, posts, early).(worker := Pass(queue, Running(Answered(attempt, false))))
  {
    s := Solo(row, task, posts, early).(worker := Pass(queue, Running(Posting(attempt))));
    ReachesNext(INIT, s, WorkerStep(Respond(false)));
    s := Apply(s, WorkerStep(Respond(false)));
  }

  /** One worker pass over the delivery, with a POST that fails. */
  lemma {:induction false} WorkerFails(
      row: Row, task: Attempt, posts: map<DeliveryId, nat>, early: set<DeliveryId>, now: Time)
      returns (s: State)
    requires Reaches(INIT, Solo(row, task, posts, early))
    requires row.webhook == 0 && row.parses && Due(row, now) && 0 <= row.attemptCount < MAX_ATTEMPTS - 1
    ensures Reaches(INIT, s)
    ensures s == Solo(MarkedFailed(row, row.attemptCount + 1, NextRetryAfter(row.attemptCount + 1, now)), task,
                      posts[0 := (if 0 in posts then posts[0] else 0) + 1],
                      if task.Claiming? then early + {0} else early)
  {
    s := WorkerClaims(row, task, posts, early, now);
    s := WorkerHears(Claimed(row), task, s.posts, s.early, s.worker.queue, row.attemptCount + 1);
    ReachesNext(INIT, s, WorkerStep(Mark(true, now)));
    s := Apply(s, WorkerStep(Mark(true, now)));
  }

  lemma {:induction false} TaskClaims(row: Row, posts: map<DeliveryId, nat>, early: set<DeliveryId>) returns (s: State)
    requires Reaches(INIT, Solo(row, Claiming(1), posts, early)) && Claimable(row)
    ensures Reaches(INIT, s)
    ensures s == Solo(Claimed(row), Posting(1), posts[0 := (if 0 in posts then posts[0] else 0) + 1], early)
  {
    s := Solo(row, Claiming(1), posts, early);
    ReachesNext(INIT, s, TaskStep(0, Claim(true)));
    s := Apply(s, TaskStep(0, Claim(true)));
  }

  lemma {:induction false} TaskHears(row: Row, posts: map<DeliveryId, nat>, early: set<DeliveryId>) returns (s: State)
    requires Reaches(INIT, Solo(row, Posting(1), posts, early))
    ensures Reaches(INIT, s)
    ensures s == Solo(row, Answered(1, false), posts, early)
  {
    s := Solo(row, Posting(1), posts, early);
    ReachesNext(INIT, s, TaskStep(0, Respond(false)));
    s := Apply(s, TaskStep(0, Respond(false)));
  }

  /** The delivery's own task, running late, with a POST that fails: the count goes back to 1. */
  lemma {:induction false} TaskFails(row: Row, posts: map<DeliveryId, nat>, early: set<DeliveryId>, now: Time)
    returns (s: State)
    requires Reaches(INIT, Solo(row, Claiming(1), posts, early)) && Claimable(row)
    ensures Reaches(INIT, s)
    ensures s == Solo(MarkedFailed(row, 1, Some(now + 1)), Finished,
                      posts[0 := (if 0 in posts then posts[0] else 0) + 1], early)
  {
    s := TaskClaims(row, posts, early);
    s := TaskHears(Claimed(row), s.posts, early);
    ReachesNext(INIT, s, TaskStep(0, Mark(true, now)));
    s := Apply(s, TaskStep(0, Mark(true, now)));
  }

  /**
   MAX_ATTEMPTS is not a limit on POSTs: two failed worker attempts, then the late task, which resets
   the count, then two more worker attempts make 2 * MAX_ATTEMPTS - 1.
   */
  lemma {:induction false} BoundIsReached()
    ensures exists acts :: ValidRun(INIT, acts) && Posts(After(INIT, acts), 0) == 2 * MAX_ATTEMPTS - 1
  {
    var s := FreshDispatched();
    s := WorkerFails(s.log[0], Claiming(1), map[], {}, 0);
    s := WorkerFails(s.log[0], Claiming(1), s.posts, s.early, 1);
    s := TaskFails(s.log[0], s.posts, s.early, 1);
    s := WorkerFails(s.log[0], Finished, s.posts, s.early, 2);
    s := WorkerClaims(s.log[0], Finished, s.posts, s.early, 7);
    assert Reaches(INIT, s) && Posts(s, 0) == 5;
  }

  // ----- What the history variables count -----

  /**
   A POST is counted exactly when one more comes to be in flight, a success when an attempt hears Ok, an alert when one
   is written, and a delivery is early when the worker reads it before its task has tried its claim.
   */
  lemma {:induction false} HistoryIsHonest(s: State, a: Action, id: DeliveryId)
    requires Invariant(s) && Enabled(s, a) && id in s.log
    ensures id in Apply(s, a).log
    ensures var v, v', m := ViewOf(s, id), ViewOf(Apply(s, a), id), MoveOf(s, a, id);
      && v'.posts == v.posts + (if v'.InFlight() > v.InFlight() then 1 else 0)
      && (v'.succeeded <==> v.succeeded || m == ByTask(Respond(true)) || m == ByWorker(Respond(true)))
      && v'.alerts == v.alerts + (if m == ByTask(Alert(true)) || m == ByWorker(Alert(true)) then 1 else 0)
      && (v'.early <==> v.early || (m == Read && v.task.Some? && v.task.value.Claiming?))
  {
    StepMoves(s, a, id);
    assert RowInvariant(ViewOf(s, id));
    MoveIsHonest(ViewOf(s, id), MoveOf(s, a, id));
  }

  lemma {:induction false} MoveIsHonest(v: View, m: Move)
    requires RowInvariant(v) && CanMove(v, m)
    ensures var v' := Moved(v, m);
      && v'.posts == v.posts + (if v'.InFlight() > v.InFlight() then 1 else 0)
      && (v'.succeeded <==> v.succeeded || m == ByTask(Respond(true)) || m == ByWorker(Respond(true)))
      && v'.alerts == v.alerts + (if m == ByTask(Alert(true)) || m == ByWorker(Alert(true)) then 1 else 0)
      && (v'.early <==> v.early || (m == Read && v.task.Some? && v.task.value.Claiming?))
  {
  }

  // ----- First come, first read -----

  ghost function CreatedAt(t: Time): View -> bool {
    (v: View) => v.row.createdAt == t
  }

  lemma {:induction false} CreationTimeLasts(t: Time)
    ensures Lasting(CreatedAt(t), false)
  {
    forall v, m | RowInvariant(v) && CreatedAt(t)(v) && CanMove(v, m) ensures CreatedAt(t)(Moved(v, m)) {
    }
  }

  /** A row keeps the time at which it was dispatched. */
  lemma {:induction false} DatedByDispatch(s: State, d: Action, acts: seq<Action>)
    requires Invariant(s) && d.Dispatch? && Enabled(s, d) && ValidRun(Apply(s, d), acts)
    ensures Invariant(Apply(s, d)) && d.id in After(Apply(s, d), acts).log
    ensures After(Apply(s, d), acts).log[d.id].createdAt == d.now
  {
    StepKeeps(s, d);
    CreationTimeLasts(d.now);
    assert CreatedAt(d.now)(ViewOf(Apply(s, d), d.id));
    LastingHolds(Apply(s, d), acts, d.id, CreatedAt(d.now), false);
  }

  lemma {:induction false} BothAreDated(
      s: State, first: Action, between: seq<Action>, s1: State, second: Action, since: seq<Action>, s2: State)
    requires Invariant(s) && first.Dispatch? && Enabled(s, first) && ValidRun(Apply(s, first), between)
    requires s1 == After(Apply(s, first), between)
    requires second.Dispatch? && Enabled(s1, second) && ValidRun(Apply(s1, second), since)
    requires s2 == After(Apply(s1, second), since)
    ensures first.id in s2.log && s2.log[first.id].createdAt == first.now
    ensures second.id in s2.log && s2.log[second.id].createdAt == second.now
  {
    StepKeeps(s, first);
    RunKeeps(Apply(s, first), between);
    DatedByDispatch(s1, second, since);
    Prepend(s1, second, since);
    RunConcat(Apply(s, first), between, [second] + since);
    DatedByDispatch(s, first, between + ([second] + since));
  }

  lemma {:induction false} OlderIsReadFirst(
      log: Log, a: DeliveryId, b: DeliveryId, now: Time, batch: seq<Entry>, j: nat) returns (i: nat)
    requires IsPendingBatch(log, now, batch) && j < |batch| && batch[j].id == b && a in log && b in log
    requires log[a].createdAt < log[b].createdAt
    requires log[a].status == Pending
          || (log[a].status == Failed && log[a].nextRetryAt.Some? && log[a].nextRetryAt.value <= now)
    ensures i < j && batch[i].id == a
  {
    BatchReadsWhatIsDue(log, now, batch, a);
    assert Contains(batch, a);
    i :| 0 <= i < |batch| && batch[i].id == a;
  }

  /**
   Of two deliveries, the one dispatched at an earlier time is read first: whatever happened to both since, a batch that
   reads the later one while the earlier one is pending, or its retry is due, has read the earlier one before.
   */
  lemma {:induction false} EarlierIsReadFirst(
      s: State, first: Action, between: seq<Action>, s1: State, second: Action, since: seq<Action>, s2: State,
      now: Time, batch: seq<Entry>, j: nat) returns (i: nat)
    requires Invariant(s) && first.Dispatch? && Enabled(s, first) && ValidRun(Apply(s, first), between)
    requires s1 == After(Apply(s, first), between)
    requires second.Dispatch? && Enabled(s1, second) && ValidRun(Apply(s1, second), since)
    requires s2 == After(Apply(s1, second), since) && first.now < second.now
    requires IsPendingBatch(s2.log, now, batch) && j < |batch| && batch[j].id == second.id && first.id in s2.log
    requires var row := s2.log[first.id];
      row.status == Pending || (row.status == Failed && row.nextRetryAt.Some? && row.nextRetryAt.value <= now)
    ensures i < j && batch[i].id == first.id
  {
    BothAreDated(s, first, between, s1, second, since, s2);
    i := OlderIsReadFirst(s2.log, first.id, second.id, now, batch, j);
  }

  // ----- Terminal rows that are lost -----

  /** The worker has read the fresh row, and its task has not tried its claim. */
  lemma {:induction false} FreshRead() returns (s: State)
    ensures Reaches(INIT, s)
    ensures s == Solo(NewRow(0, true, 0), Claiming(1), map[], {0}).(worker := Pass([Entry(0, 0, true, 0)], Lookup))
  {
    s := FreshDispatched();
    var batch := [Entry(0, 0, true, 0)];
    assert Contains(batch, 0) by { assert batch[0].id == 0; }
    ReachesNext(INIT, s, Wake(0, batch));
    s := Apply(s, Wake(0, batch));
    assert s.early == {0};
  }

  /** Then the task has claimed the row and started its POST. */
  lemma {:induction false} FreshClaimed() returns (s: State)
    ensures Reaches(INIT, s)
    ensures s == Solo(Claimed(NewRow(0, true, 0)), Posting(1), map[0 := 1], {0}).(
                   worker := Pass([Entry(0, 0, true, 0)], Lookup))
  {
    s := FreshRead();
    ReachesNext(INIT, s, TaskStep(0, Claim(true)));
    s := Apply(s, TaskStep(0, Claim(true)));
  }

  lemma {:induction false} FreshDelivered() returns (s: State)
    ensures Reaches(INIT, s)
    ensures 0 in s.log && s.log[0].status == Delivered && StaleRead(ViewOf(s, 0))
  {
    s := FreshClaimed();
    ReachesNext(INIT, s, TaskStep(0, Respond(true)));
    s := Apply(s, TaskStep(0, Respond(true)));
    ReachesNext(INIT, s, TaskStep(0, Mark(true, 0)));
    s := Apply(s, TaskStep(0, Mark(true, 0)));
  }

  /** A run from the start delivers a row and then marks it permanently failed. */
  lemma {:induction false} DeliveredCanBeLost()
    ensures exists s, s' ::
      && Reaches(INIT, s) && 0 in s.log && s.log[0].status == Delivered && StaleRead(ViewOf(s, 0))
      && Reaches(s, s') && 0 in s'.log && s'.log[0].status == PermanentlyFailed
  {
    var s := FreshDelivered();
    ReachableInvariant(s);
    var acts := LosingRun(s, 0);
    assert Reaches(s, After(s, acts));
  }

  /** The webhook is deleted while the POST is in flight, and the worker is about to condemn the row. */
  lemma {:induction false} CondemningClaimed() returns (s: State)
    ensures Reaches(INIT, s)
    ensures s == Solo(Claimed(NewRow(0, true, 0)), Posting(1), map[0 := 1], {0}).(
                   live := {}, worker := Pass([Entry(0, 0, true, 0)], Condemning))
  {
    s := FreshClaimed();
    ReachesNext(INIT, s, Delete(0));
    s := Apply(s, Delete(0));
    ReachesNext(INIT, s, LookUp(true));
    s := Apply(s, LookUp(true));
  }

  lemma {:induction false} CondemnedInFlight() returns (s: State)
    ensures Reaches(INIT, s)
    ensures 0 in s.log && s.log[0].status == PermanentlyFailed && ViewOf(s, 0).Held()
  {
    s := CondemningClaimed();
    ReachesNext(INIT, s, Condemn(true));
    s := Apply(s, Condemn(true));
  }

  /** A run from the start condemns a row while its task's POST is in flight, and then delivers it. */
  lemma {:induction false} FailedCanBeRevived()
    ensures exists s, s' ::
      && Reaches(INIT, s) && 0 in s.log && s.log[0].status == PermanentlyFailed && ViewOf(s, 0).Held()
      && Reaches(s, s') && 0 in s'.log && s'.log[0].status != PermanentlyFailed
  {
    var s := CondemnedInFlight();
    ReachableInvariant(s);
    var acts := RevivingRun(s, 0);
    assert Reaches(s, After(s, acts));
  }

  lemma {:induction false} ReachableInvariant(s: State)
    requires Reaches(INIT, s)
    ensures Invariant(s)
  {
    InitInvariant();
    var acts :| ValidRun(INIT, acts) && After(INIT, acts) == s;
    RunKeeps(INIT, acts);
  }
}
