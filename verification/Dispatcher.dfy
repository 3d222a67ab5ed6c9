/**
 Dispatching an event to the registered webhooks, and the text a delivery signs (backend/src/webhook_dispatch.rs).
 */
module Dispatcher {
  import opened Wrappers
  import opened DeliveryLog
  import opened WebhookProtocol
  import opened RetryWorker

  datatype Hook = Hook(id: WebhookId, events: seq<string>)

  predicate Listens(hook: Hook, eventType: string) {
    eventType in hook.events || "*" in hook.events
  }

  /**
   One round of the loop per hook: the id its delivery would get, a fresh UUID; whether the insert works; and the time.
   */
  datatype Round = Round(id: DeliveryId, dbOk: bool, now: Time)

  ghost predicate FreshRounds(log: Log, hooks: seq<Hook>, rounds: seq<Round>) {
    && |rounds| == |hooks|
    && (forall i :: 0 <= i < |rounds| ==> rounds[i].id !in log)
    && (forall i, j :: 0 <= i < j < |rounds| ==> rounds[i].id != rounds[j].id)
  }

  predicate Delivers(hooks: seq<Hook>, rounds: seq<Round>, eventType: string, i: nat)
    requires i < |hooks| == |rounds|
  {
    Listens(hooks[i], eventType) && rounds[i].dbOk
  }

  /** The first `n` hooks have been served. */
  ghost predicate Served(
    before: Log, after: Log, tasks: map<DeliveryId, Attempt>, hooks: seq<Hook>, rounds: seq<Round>, eventType: string,
    n: nat)
    requires n <= |hooks| == |rounds|
  {
    && before.Keys <= after.Keys
    && (forall id :: id in before ==> after[id] == before[id])
    && tasks.Keys == after.Keys - before.Keys
    && (forall i :: 0 <= i < n && Delivers(hooks, rounds, eventType, i) ==>
          rounds[i].id in after && after[rounds[i].id] == NewRow(hooks[i].id, true, rounds[i].now))
    && (forall id :: id in tasks ==>
          tasks[id] == Claiming(1)
          && exists i :: 0 <= i < n && rounds[i].id == id && Delivers(hooks, rounds, eventType, i))
  }

  /** The delivery table and the tasks spawned so far. */
  datatype Books = Books(log: Log, tasks: map<DeliveryId, Attempt>)

  function ServeAll(b: Books, hooks: seq<Hook>, rounds: seq<Round>, eventType: string): Books
    requires |rounds| == |hooks|
    decreases |hooks|
  {
    if hooks == [] then b
    else
      var b' :=
        if !Delivers(hooks, rounds, eventType, 0) then b
        else Books(b.log[rounds[0].id := NewRow(hooks[0].id, true, rounds[0].now)],
                   b.tasks[rounds[0].id := Claiming(1)]);
      ServeAll(b', hooks[1..], rounds[1..], eventType)
  }

  /**
   Each listening hook whose row could be inserted gets one new pending row and one spawned task for its first
   attempt; no other row is touched. The stored payload is serialised JSON, so it parses.
   */
  method Dispatch(db: Database, hooks: seq<Hook>, rounds: seq<Round>, eventType: string)
    returns (spawned: map<DeliveryId, Attempt>)
    requires FreshRounds(db.deliveries, hooks, rounds)
    modifies db`deliveries
    ensures Served(old(db.deliveries), db.deliveries, spawned, hooks, rounds, eventType, |hooks|)
    ensures Books(db.deliveries, spawned) == ServeAll(Books(old(db.deliveries), map[]), hooks, rounds, eventType)
  {
    spawned := map[];
    for i := 0 to |hooks|
      invariant Served(old(db.deliveries), db.deliveries, spawned, hooks, rounds, eventType, i)
      invariant forall j :: i <= j < |rounds| ==> rounds[j].id !in db.deliveries
      invariant ServeAll(Books(db.deliveries, spawned), hooks[i..], rounds[i..], eventType)
             == ServeAll(Books(old(db.deliveries), map[]), hooks, rounds, eventType)
    {
      var hook, round := hooks[i], rounds[i];
      assert hooks[i..][1..] == hooks[i + 1..] && rounds[i..][1..] == rounds[i + 1..];
      if !Listens(hook, eventType) {
        continue;
      }
      var inserted := db.InsertDelivery(round.id, hook.id, true, round.now, round.dbOk);
      if inserted.Err? {
        continue;
      }
      spawned := spawned[round.id := Claiming(1)];
      assert Delivers(hooks, rounds, eventType, i);
    }
  }

  /**
   A hook gets its delivery exactly if the insert works and one of its registered event types is this one or "*"; the
   new row is pending, untried and dated by its insertion.
   */
  lemma {:induction false} HookIsServed(
      before: Log, after: Log, tasks: map<DeliveryId, Attempt>, hooks: seq<Hook>, rounds: seq<Round>, eventType: string,
      i: nat)
    requires FreshRounds(before, hooks, rounds) && i < |hooks|
    requires Served(before, after, tasks, hooks, rounds, eventType, |hooks|)
    ensures var id, hook := rounds[i].id, hooks[i];
      && (id in after <==>
            && rounds[i].dbOk
            && exists k :: 0 <= k < |hook.events| && (hook.events[k] == eventType || hook.events[k] == "*"))
      && (id in tasks <==> id in after)
      && (id in after ==> after[id] == Row(hook.id, true, Pending, 0, None, rounds[i].now) && tasks[id] == Claiming(1))
  {
    var id := rounds[i].id;
    if id in after {
      assert id in tasks;
      var j :| 0 <= j < |hooks| && rounds[j].id == id && Delivers(hooks, rounds, eventType, j);
      assert j == i;
    }
  }

  /** What a dispatch does is a run of the protocol, whoever interleaves with its tasks later. */
  lemma {:induction false} DispatchIsRun(s: State, hooks: seq<Hook>, rounds: seq<Round>, eventType: string, b: Books,
                                         others: map<DeliveryId, Attempt>) returns (s': State)
    requires FreshRounds(s.log, hooks, rounds) && b.log == s.log && s.tasks == others + b.tasks
    requires forall i :: 0 <= i < |hooks| ==> hooks[i].id in s.registered
    ensures Reaches(s, s') && s'.log == ServeAll(b, hooks, rounds, eventType).log
    ensures s'.tasks == others + ServeAll(b, hooks, rounds, eventType).tasks
    decreases |hooks|
  {
    ReachesItself(s);
    if hooks == [] {
      s' := s;
    } else if Delivers(hooks, rounds, eventType, 0) {
      var id := rounds[0].id;
      var step := WebhookProtocol.Dispatch(id, hooks[0].id, true, rounds[0].now);
      var next := Books(b.log[id := NewRow(hooks[0].id, true, rounds[0].now)], b.tasks[id := Claiming(1)]);
      ReachesNext(s, s, step);
      s' := DispatchIsRun(Apply(s, step), hooks[1..], rounds[1..], eventType, next, others);
      ReachesTransitive(s, Apply(s, step), s');
    } else {
      s' := DispatchIsRun(s, hooks[1..], rounds[1..], eventType, b, others);
    }
  }

  // ----- What is signed -----

  /** The text under the HMAC: delivery id, timestamp and body, with dots between. */
  function SignedString(deliveryId: string, timestamp: string, body: string): string {
    deliveryId + "." + timestamp + "." + body
  }

  lemma {:induction false} DotSplits(a: string, s: string, b: string, t: string)
    requires '.' !in a && '.' !in b && a + "." + s == b + "." + t
    ensures a == b && s == t
  {
    var x, y := a + "." + s, b + "." + t;
    assert x[|a|] == '.' && y[|b|] == '.';
    assert x[..|a|] == a && y[..|b|] == b;
    assert x[|a| + 1..] == s && y[|b| + 1..] == t;
  }

  /**
   Two deliveries sign the same text only if they agree in id, timestamp and body, because neither a UUID nor a decimal
   timestamp has a dot; with dots in them the text no longer tells the parts apart.
   */
  lemma {:induction false} SignedStringIsUnique(
      id: string, ts: string, body: string, id': string, ts': string, body': string)
    requires '.' !in id && '.' !in ts && '.' !in id' && '.' !in ts'
    requires SignedString(id, ts, body) == SignedString(id', ts', body')
    ensures id == id' && ts == ts' && body == body'
  {
    assert SignedString(id, ts, body) == id + "." + (ts + "." + body);
    assert SignedString(id', ts', body') == id' + "." + (ts' + "." + body');
    DotSplits(id, ts + "." + body, id', ts' + "." + body');
    DotSplits(ts, body, ts', body');
  }

  lemma {:induction false} DotsConfuse(id: string, ts: string, more: string, body: string)
    ensures SignedString(id, ts, more + "." + body) == SignedString(id + "." + ts, more, body)
  {
    assert SignedString(id, ts, more + "." + body) == id + "." + ts + "." + more + "." + body;
  }
}
