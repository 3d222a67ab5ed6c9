/**
 The liquidation history as a view derived from the event log (backend/src/db.rs,
 `sync_liquidations_from_event_log`).
 */
module LiquidationSync {
  import opened Wrappers

  /** The fields the sync reads from the JSON payload of an event; None for a missing or mistyped one. */
  datatype Payload = Payload(
    cdpAddress: Option<string>,
    collateralMint: Option<string>,
    collateralSeized: Option<int>,
    debtRepaid: Option<int>,
    liquidator: Option<string>)

  /** A row of `event_log`; `data` is None if it is not JSON. */
  datatype EventRow = EventRow(
    eventType: string,
    address: string,
    data: Option<Payload>,
    signature: Option<string>,
    slot: Option<int>)

  /** A row of `liquidation_history`, without its random id and creation time. */
  datatype Liquidation = Liquidation(
    cdpAddress: string,
    collateralMint: string,
    collateralSeized: int,
    debtRepaid: int,
    liquidator: string,
    slot: Option<int>,
    signature: Option<string>)

  function GetOr<T>(o: Option<T>, default: T): T {
    match o
    case Some(v) => v
    case None => default
  }

  /** The join of the query: in SQL a null signature equals nothing, not even another null. */
  predicate Matches(lh: Liquidation, e: EventRow) {
    e.signature.Some? && lh.signature == e.signature && lh.cdpAddress == e.address
  }

  predicate Recorded(history: seq<Liquidation>, e: EventRow) {
    exists i :: 0 <= i < |history| && Matches(history[i], e)
  }

  predicate Selected(history: seq<Liquidation>, e: EventRow) {
    e.eventType == "cdp_liquidate" && !Recorded(history, e)
  }

  /** The sync can turn the event into a row. */
  predicate Decodable(e: EventRow) {
    e.data.Some? && e.data.value.collateralMint.Some?
  }

  function Decoded(e: EventRow): Liquidation
    requires Decodable(e)
  {
    var v := e.data.value;
    Liquidation(GetOr(v.cdpAddress, e.address), v.collateralMint.value, GetOr(v.collateralSeized, 0),
                GetOr(v.debtRepaid, 0), GetOr(v.liquidator, ""), e.slot, e.signature)
  }

  function Select(history: seq<Liquidation>, events: seq<EventRow>): seq<EventRow> {
    if events == [] then []
    else
      var e := events[|events| - 1];
      Select(history, events[..|events| - 1]) + if Selected(history, e) then [e] else []
  }

  function DecodedAll(events: seq<EventRow>): seq<Liquidation> {
    if events == [] then []
    else
      var e := events[|events| - 1];
      DecodedAll(events[..|events| - 1]) + if Decodable(e) then [Decoded(e)] else []
  }

  /** The rows one sync adds. */
  function Added(history: seq<Liquidation>, events: seq<EventRow>): seq<Liquidation> {
    DecodedAll(Select(history, events))
  }

  lemma {:induction false} DecodedPrefix(events: seq<EventRow>, n: nat)
    requires n <= |events|
    ensures |DecodedAll(events[..n])| <= |DecodedAll(events)|
    ensures DecodedAll(events)[..|DecodedAll(events[..n])|] == DecodedAll(events[..n])
  {
    if n == |events| {
      assert events[..n] == events;
    } else {
      var init := events[..|events| - 1];
      DecodedPrefix(init, n);
      assert init[..n] == events[..n];
    }
  }

  lemma {:induction false} DecodedStep(rows: seq<EventRow>, i: nat)
    requires i < |rows|
    ensures DecodedAll(rows[..i + 1]) == DecodedAll(rows[..i]) + if Decodable(rows[i]) then [Decoded(rows[i])] else []
  {
    assert rows[..i + 1][..i] == rows[..i];
  }

  lemma {:induction false} MoreToCome(rows: seq<EventRow>, i: nat)
    requires i < |rows| && Decodable(rows[i])
    ensures var done := DecodedAll(rows[..i]);
      |done| < |DecodedAll(rows)| && DecodedAll(rows)[..|done|] == done
  {
    DecodedStep(rows, i);
    DecodedPrefix(rows, i + 1);
    DecodedPrefix(rows, i);
  }

  function Least(a: nat, b: nat): nat {
    if a <= b then a else b
  }

  class Tables {
    var eventLog: seq<EventRow>
    var history: seq<Liquidation>

    constructor (eventLog: seq<EventRow>, history: seq<Liquidation>)
      ensures this.eventLog == eventLog && this.history == history
    {
      this.eventLog, this.history := eventLog, history;
    }

    /** After `insertsOk` inserts the next one fails. What was inserted before stays: there is no transaction. */
    method Sync(queryOk: bool, insertsOk: nat) returns (r: Result<nat, ()>)
      modifies this`history
      ensures var added := Added(old(history), eventLog);
        && history == old(history) + (if queryOk then added[..Least(insertsOk, |added|)] else [])
        && r == if queryOk && insertsOk >= |added| then Ok(|added|) else Err(())
    {
      if !queryOk {
        return Err(());
      }
      var rows := Select(history, eventLog);
      var inserted := 0;
      for i := 0 to |rows|
        invariant history == old(history) + DecodedAll(rows[..i])
        invariant inserted == |DecodedAll(rows[..i])| <= insertsOk
      {
        var row := rows[i];
        DecodedStep(rows, i);
        if row.data.None? {
          continue;
        }
        var v := row.data.value;
        var cdpAddress := GetOr(v.cdpAddress, row.address);
        if v.collateralMint.None? {
          continue;
        }
        if inserted == insertsOk {
          MoreToCome(rows, i);
          return Err(());
        }
        history := history + [Liquidation(cdpAddress, v.collateralMint.value, GetOr(v.collateralSeized, 0),
                                          GetOr(v.debtRepaid, 0), GetOr(v.liquidator, ""), row.slot, row.signature)];
        inserted := inserted + 1;
      }
      assert rows[..|rows|] == rows;
      r := Ok(inserted);
    }
  }

  // ----- What a sync adds -----

  lemma {:induction false} SelectHas(history: seq<Liquidation>, events: seq<EventRow>, e: EventRow)
    ensures e in Select(history, events) <==> e in events && Selected(history, e)
  {
    if events != [] {
      var init, last := events[..|events| - 1], events[|events| - 1];
      SelectHas(history, init, e);
      assert events == init + [last];
    }
  }

  lemma {:induction false} DecodedHas(events: seq<EventRow>, lh: Liquidation)
    ensures lh in DecodedAll(events) <==> exists e :: e in events && Decodable(e) && Decoded(e) == lh
  {
    if events != [] {
      var init, last := events[..|events| - 1], events[|events| - 1];
      DecodedHas(init, lh);
      assert events == init + [last];
    }
  }

  lemma {:induction false} DecodedLength(events: seq<EventRow>)
    ensures |DecodedAll(events)| <= |events|
    ensures DecodedAll(events) == [] <==> forall e :: e in events ==> !Decodable(e)
  {
    if events != [] {
      var init, last := events[..|events| - 1], events[|events| - 1];
      DecodedLength(init);
      assert events == init + [last];
    }
  }

  // ----- What the rows say -----

  /** The sync takes the event up and can decode it. */
  predicate Due(history: seq<Liquidation>, e: EventRow) {
    Selected(history, e) && Decodable(e)
  }

  /** What the event contributes to a sync. */
  function RowOf(history: seq<Liquidation>, e: EventRow): seq<Liquidation> {
    if Due(history, e) then [Decoded(e)] else []
  }

  lemma {:induction false} DecodedNext(events: seq<EventRow>, e: EventRow)
    ensures DecodedAll(events + [e]) == DecodedAll(events) + if Decodable(e) then [Decoded(e)] else []
  {
    assert (events + [e])[..|events|] == events;
  }

  /** A liquidation event with a payload that names the collateral, and without a row yet. */
  predicate Wanted(history: seq<Liquidation>, e: EventRow) {
    && e.eventType == "cdp_liquidate" && e.data.Some? && e.data.value.collateralMint.Some?
    && forall i :: 0 <= i < |history| ==>
         e.signature == None || history[i].signature != e.signature || history[i].cdpAddress != e.address
  }

  /** The events a sync takes up, in the order of the log. */
  function TakenUp(history: seq<Liquidation>, events: seq<EventRow>): seq<EventRow> {
    if events == [] then []
    else
      var e := events[|events| - 1];
      TakenUp(history, events[..|events| - 1]) + if Wanted(history, e) then [e] else []
  }

  /** Field by field, the row is the event's: what the payload lacks is the address, zero or empty. */
  predicate Carries(lh: Liquidation, e: EventRow)
    requires e.data.Some?
  {
    var v := e.data.value;
    && lh.cdpAddress == (if v.cdpAddress.Some? then v.cdpAddress.value else e.address)
    && v.collateralMint == Some(lh.collateralMint)
    && lh.collateralSeized == (if v.collateralSeized.Some? then v.collateralSeized.value else 0)
    && lh.debtRepaid == (if v.debtRepaid.Some? then v.debtRepaid.value else 0)
    && lh.liquidator == (if v.liquidator.Some? then v.liquidator.value else "")
    && lh.slot == e.slot && lh.signature == e.signature
  }

  lemma {:induction false} WantedIsSelected(history: seq<Liquidation>, e: EventRow)
    ensures Wanted(history, e) <==> Selected(history, e) && Decodable(e)
  {
    if !Wanted(history, e) && Decodable(e) && e.eventType == "cdp_liquidate" {
      var i :| 0 <= i < |history| && !(e.signature == None || history[i].signature != e.signature
                                       || history[i].cdpAddress != e.address);
      assert Matches(history[i], e);
    }
  }

  lemma {:induction false} AddedNext(history: seq<Liquidation>, events: seq<EventRow>, n: nat)
    requires n < |events|
    ensures Added(history, events[..n + 1]) == Added(history, events[..n]) + RowOf(history, events[n])
  {
    assert events[..n + 1][..n] == events[..n];
    var before := Select(history, events[..n]);
    if Selected(history, events[n]) {
      DecodedNext(before, events[n]);
    } else {
      assert Select(history, events[..n + 1]) == before;
    }
  }

  /** The rows a sync adds are those of the events it takes up, one for one and in order. */
  lemma {:induction false} AddedRows(history: seq<Liquidation>, events: seq<EventRow>)
    ensures |Added(history, events)| == |TakenUp(history, events)|
    ensures forall k :: 0 <= k < |Added(history, events)| ==>
      && TakenUp(history, events)[k].data.Some?
      && Carries(Added(history, events)[k], TakenUp(history, events)[k])
  {
    if events != [] {
      var n := |events| - 1;
      assert events[..n + 1] == events;
      AddedRows(history, events[..n]);
      AddedNext(history, events, n);
      WantedIsSelected(history, events[n]);
    }
  }

  function SeizedIn(rows: seq<Liquidation>): int {
    if rows == [] then 0 else SeizedIn(rows[..|rows| - 1]) + rows[|rows| - 1].collateralSeized
  }

  function RepaidIn(rows: seq<Liquidation>): int {
    if rows == [] then 0 else RepaidIn(rows[..|rows| - 1]) + rows[|rows| - 1].debtRepaid
  }

  /** What the events say was seized and repaid; a payload that does not say counts for nothing. */
  function SeizedBy(events: seq<EventRow>): int {
    if events == [] then 0
    else
      var e := events[|events| - 1];
      SeizedBy(events[..|events| - 1])
      + if e.data.Some? && e.data.value.collateralSeized.Some? then e.data.value.collateralSeized.value else 0
  }

  function RepaidBy(events: seq<EventRow>): int {
    if events == [] then 0
    else
      var e := events[|events| - 1];
      RepaidBy(events[..|events| - 1])
      + if e.data.Some? && e.data.value.debtRepaid.Some? then e.data.value.debtRepaid.value else 0
  }

  lemma {:induction false} SumsAgree(rows: seq<Liquidation>, events: seq<EventRow>)
    requires |rows| == |events|
    requires forall k :: 0 <= k < |rows| ==> events[k].data.Some? && Carries(rows[k], events[k])
    ensures SeizedIn(rows) == SeizedBy(events) && RepaidIn(rows) == RepaidBy(events)
  {
    if rows != [] {
      SumsAgree(rows[..|rows| - 1], events[..|events| - 1]);
      assert Carries(rows[|rows| - 1], events[|events| - 1]);
    }
  }

  /** Nothing seized or repaid is lost or invented: the totals of the rows are those of the events. */
  lemma {:induction false} AmountsAreConserved(history: seq<Liquidation>, events: seq<EventRow>)
    ensures SeizedIn(Added(history, events)) == SeizedBy(TakenUp(history, events))
    ensures RepaidIn(Added(history, events)) == RepaidBy(TakenUp(history, events))
  {
    AddedRows(history, events);
    SumsAgree(Added(history, events), TakenUp(history, events));
  }

  /** An event the sync has to take care of. */
  predicate Liquidates(e: EventRow) {
    e.eventType == "cdp_liquidate" && Decodable(e)
  }

  /** The row of some unrecorded event of the log will match `e`. */
  ghost predicate WillBeRecorded(history: seq<Liquidation>, events: seq<EventRow>, e: EventRow) {
    exists other :: other in events && Selected(history, other) && Decodable(other) && Matches(Decoded(other), e)
  }

  lemma {:induction false} RecordedAfter(history: seq<Liquidation>, events: seq<EventRow>, e: EventRow)
    ensures Recorded(history + Added(history, events), e)
       <==> Recorded(history, e) || WillBeRecorded(history, events, e)
  {
    var added := Added(history, events);
    var after := history + added;
    if Recorded(history, e) {
      var i :| 0 <= i < |history| && Matches(history[i], e);
      assert Matches(after[i], e);
    }
    if WillBeRecorded(history, events, e) {
      var other :| other in events && Selected(history, other) && Decodable(other) && Matches(Decoded(other), e);
      SelectHas(history, events, other);
      DecodedHas(Select(history, events), Decoded(other));
      var i :| 0 <= i < |added| && added[i] == Decoded(other);
      assert Matches(after[|history| + i], e);
    }
    if Recorded(after, e) && !Recorded(history, e) {
      var i :| 0 <= i < |after| && Matches(after[i], e);
      assert forall k :: 0 <= k < |history| ==> after[k] == history[k];
      assert i >= |history|;
      assert after[i] in added;
      DecodedHas(Select(history, events), after[i]);
      var other :| other in Select(history, events) && Decodable(other) && Decoded(other) == after[i];
      SelectHas(history, events, other);
    }
  }

  /** The second of two syncs adds nothing if and only if the first has recorded every liquidation event. */
  lemma {:induction false} SecondSyncIsEmpty(history: seq<Liquidation>, events: seq<EventRow>)
    ensures var after := history + Added(history, events);
      Added(after, events) == [] <==>
      forall e :: e in events && Liquidates(e) ==> Recorded(history, e) || WillBeRecorded(history, events, e)
  {
    var after := history + Added(history, events);
    DecodedLength(Select(after, events));
    forall e | e in events && Liquidates(e)
      ensures e !in Select(after, events) <==> Recorded(history, e) || WillBeRecorded(history, events, e)
    {
      SelectHas(after, events, e);
      RecordedAfter(history, events, e);
    }
    forall e | e in Select(after, events) && Decodable(e)
      ensures e in events && Liquidates(e)
    {
      SelectHas(after, events, e);
    }
  }

  // ----- When the view is right -----

  /** The event can be found again: it has a signature, and its row will carry its own address. */
  predicate Findable(e: EventRow) {
    && e.signature.Some?
    && (Decodable(e) ==> e.data.value.cdpAddress == None || e.data.value.cdpAddress == Some(e.address))
  }

  /**
   If every decodable liquidation event is findable, one sync gives each of them a matching row and a
   second sync inserts nothing.
   */
  lemma {:induction false} SyncIsCompleteAndIdempotent(history: seq<Liquidation>, events: seq<EventRow>)
    requires forall e :: e in events && Liquidates(e) ==> Findable(e)
    ensures var after := history + Added(history, events);
      && (forall e :: e in events && Liquidates(e) ==> Recorded(after, e))
      && Added(after, events) == []
  {
    forall e | e in events && Liquidates(e)
      ensures Recorded(history, e) || WillBeRecorded(history, events, e)
      ensures Recorded(history + Added(history, events), e)
    {
      if !Recorded(history, e) { assert Selected(history, e) && Matches(Decoded(e), e); }
      RecordedAfter(history, events, e);
    }
    SecondSyncIsEmpty(history, events);
  }

  /**
   For a log with a single liquidation event the two conditions are exactly what it takes: otherwise each
   further sync adds the event again.
   */
  lemma {:induction false} SingleEventNeedsBoth(e: EventRow)
    requires Liquidates(e)
    ensures Added([] + Added([], [e]), [e]) == [] <==> Findable(e)
  {
    SecondSyncIsEmpty([], [e]);
    assert e in [e];
    if Findable(e) {
      SyncIsCompleteAndIdempotent([], [e]);
    }
  }

  // ----- What happens otherwise -----

  function Synced(history: seq<Liquidation>, events: seq<EventRow>, times: nat): seq<Liquidation> {
    if times == 0 then history
    else Synced(history, events, times - 1) + Added(Synced(history, events, times - 1), events)
  }

  /** Nothing new gets recorded after the first sync. */
  lemma {:induction false} SecondSyncRecordsNothingNew(history: seq<Liquidation>, events: seq<EventRow>, e: EventRow)
    ensures var after := history + Added(history, events);
      Recorded(after + Added(after, events), e) <==> Recorded(after, e)
  {
    var after := history + Added(history, events);
    RecordedAfter(after, events, e);
    if WillBeRecorded(after, events, e) {
      var other :| other in events && Selected(after, other) && Decodable(other) && Matches(Decoded(other), e);
      RecordedAfter(history, events, other);
      assert Selected(history, other);
      RecordedAfter(history, events, e);
    }
  }

  lemma {:induction false} SelectAgrees(h1: seq<Liquidation>, h2: seq<Liquidation>, events: seq<EventRow>)
    requires forall e :: Recorded(h1, e) <==> Recorded(h2, e)
    ensures Select(h1, events) == Select(h2, events)
  {
    if events != [] {
      SelectAgrees(h1, h2, events[..|events| - 1]);
    }
  }

  /**
   Sync runs on every request. Its later runs all insert the same number of rows: the history grows by the
   number of unfindable events each time.
   */
  lemma {:induction false} HistoryGrowsLinearly(history: seq<Liquidation>, events: seq<EventRow>, times: nat)
    requires times >= 1
    ensures var first := Synced(history, events, 1);
      && Added(Synced(history, events, times), events) == Added(first, events)
      && |Synced(history, events, times)| == |first| + (times - 1) * |Added(first, events)|
  {
    if times > 1 {
      var before := Synced(history, events, times - 1);
      HistoryGrowsLinearly(history, events, times - 1);
      forall e ensures Recorded(Synced(history, events, times), e) <==> Recorded(before, e) {
        SecondSyncRecordsNothingNew(Synced(history, events, times - 2), events, e);
      }
      SelectAgrees(Synced(history, events, times), before, events);
    }
  }

  // ----- A sync that is cut short -----

  lemma {:induction false} RecordedJoin(history: seq<Liquidation>, more: seq<Liquidation>, e: EventRow)
    ensures Recorded(history + more, e) <==> Recorded(history, e) || Recorded(more, e)
  {
    var all := history + more;
    if Recorded(history, e) {
      var i :| 0 <= i < |history| && Matches(history[i], e);
      assert Matches(all[i], e);
    }
    if Recorded(more, e) {
      var i :| 0 <= i < |more| && Matches(more[i], e);
      assert Matches(all[|history| + i], e);
    }
    if Recorded(all, e) && !Recorded(history, e) {
      var i :| 0 <= i < |all| && Matches(all[i], e);
      assert i >= |history| && Matches(more[i - |history|], e);
    }
  }

  /** The first row to match a due event, of those a sync is to insert, is the event's own. */
  ghost predicate OwnRowFirst(history: seq<Liquidation>, events: seq<EventRow>, i: nat)
    requires i < |events|
  {
    Due(history, events[i]) ==>
      && Matches(Decoded(events[i]), events[i])
      && forall j :: 0 <= j < i && Due(history, events[j]) ==> !Matches(Decoded(events[j]), events[i])
  }

  /** So it is for the first `n` events. */
  ghost predicate OwnRowsFirst(history: seq<Liquidation>, events: seq<EventRow>, n: nat)
    requires n <= |events|
  {
    forall i :: 0 <= i < n ==> OwnRowFirst(history, events, i)
  }

  /** Each row added comes from an event that is due. */
  lemma {:induction false} AddedFrom(history: seq<Liquidation>, events: seq<EventRow>, k: nat) returns (i: nat)
    requires k < |Added(history, events)|
    ensures i < |events| && Due(history, events[i]) && Added(history, events)[k] == Decoded(events[i])
  {
    var row := Added(history, events)[k];
    assert row in Added(history, events);
    DecodedHas(Select(history, events), row);
    var e :| e in Select(history, events) && Decodable(e) && Decoded(e) == row;
    SelectHas(history, events, e);
    i :| 0 <= i < |events| && events[i] == e;
  }

  lemma {:induction false} AddedPrefix(history: seq<Liquidation>, events: seq<EventRow>, n: nat)
    requires n <= |events|
    ensures Added(history, events[..n]) <= Added(history, events)
    decreases |events| - n
  {
    if n == |events| {
      assert events[..n] == events;
    } else {
      AddedNext(history, events, n);
      AddedPrefix(history, events, n + 1);
    }
  }

  /** The event is taken up again if and only if its own row, number `m`, is not among those done. */
  lemma {:induction false} TakenUpAgain(
      history: seq<Liquidation>, events: seq<EventRow>, done: seq<Liquidation>, n: nat, m: nat)
    requires n < |events| && Due(history, events[n]) && OwnRowFirst(history, events, n)
    requires m == |Added(history, events[..n])|
    requires |done| <= m ==> done <= Added(history, events[..n])
    requires |done| > m ==> done[m] == Decoded(events[n])
    ensures RowOf(history + done, events[n]) == if |done| > m then [] else [Decoded(events[n])]
  {
    RecordedJoin(history, done, events[n]);
    if |done| > m {
      assert Matches(done[m], events[n]);
    } else if Recorded(done, events[n]) {
      var k :| 0 <= k < |done| && Matches(done[k], events[n]);
      var i := AddedFrom(history, events[..n], k);
      assert false;
    }
  }

  lemma {:induction false} RestNext(
      history: seq<Liquidation>, events: seq<EventRow>, done: seq<Liquidation>, n: nat,
      before: seq<Liquidation>, all: seq<Liquidation>)
    requires n < |events| && OwnRowFirst(history, events, n) && before == Added(history, events[..n])
    requires done <= all && before + RowOf(history, events[n]) <= all
    ensures (if |done| <= |before| then before[|done|..] else []) + RowOf(history + done, events[n])
         == var after := before + RowOf(history, events[n]);
            if |done| <= |after| then after[|done|..] else []
  {
    if Due(history, events[n]) {
      var after := before + [Decoded(events[n])];
      assert forall i :: 0 <= i < |after| ==> all[i] == after[i];
      TakenUpAgain(history, events, done, n, |before|);
    } else {
      RecordedJoin(history, done, events[n]);
    }
  }

  lemma {:induction false} RestAdded(history: seq<Liquidation>, events: seq<EventRow>, done: seq<Liquidation>, n: nat)
    requires n <= |events| && OwnRowsFirst(history, events, n) && done <= Added(history, events)
    ensures var added := Added(history, events[..n]);
      Added(history + done, events[..n]) == if |done| <= |added| then added[|done|..] else []
  {
    if n == 0 {
      assert events[..0] == [];
    } else {
      assert OwnRowFirst(history, events, n - 1);
      RestAdded(history, events, done, n - 1);
      AddedNext(history, events, n - 1);
      AddedNext(history + done, events, n - 1);
      AddedPrefix(history, events, n);
      RestNext(history, events, done, n - 1, Added(history, events[..n - 1]), Added(history, events));
    }
  }

  /** A sync cut short after `k` rows and the next full one insert together what one full sync inserts. */
  predicate Resumes(history: seq<Liquidation>, events: seq<EventRow>, k: nat)
    requires k <= |Added(history, events)|
  {
    var done := Added(history, events)[..k];
    done + Added(history + done, events) == Added(history, events)
  }

  /** A sync takes nothing up that it would not have taken up before. */
  lemma {:induction false} TakesNoMore(
      history: seq<Liquidation>, done: seq<Liquidation>, events: seq<EventRow>, n: nat)
    requires n <= |events|
    ensures |Added(history + done, events)| - |Added(history + done, events[..n])|
         <= |Added(history, events)| - |Added(history, events[..n])|
    decreases |events| - n
  {
    if n == |events| {
      assert events[..n] == events;
    } else {
      AddedNext(history, events, n);
      AddedNext(history + done, events, n);
      RecordedJoin(history, done, events[n]);
      TakesNoMore(history, done, events, n + 1);
    }
  }

  /** If an earlier row matches event `n`, cutting just before its own row loses it. */
  lemma {:induction false} EarlierRowLoses(history: seq<Liquidation>, events: seq<EventRow>, n: nat, j: nat)
    requires j < n < |events| && OwnRowsFirst(history, events, n)
    requires Due(history, events[n]) && Due(history, events[j]) && Matches(Decoded(events[j]), events[n])
    ensures |Added(history, events[..n])| <= |Added(history, events)|
    ensures !Resumes(history, events, |Added(history, events[..n])|)
  {
    AddedPrefix(history, events, n);
    var all, done := Added(history, events), Added(history, events[..n]);
    assert all[..|done|] == done;
    RestAdded(history, events, done, n);
    AddedNext(history, events, n);
    AddedNext(history + done, events, n);
    RecordedJoin(history, done, events[n]);
    assert Recorded(done, events[n]) by { RowIsAdded(history, events, n, j); }
    TakesNoMore(history, done, events, n + 1);
  }

  /** The row of an event that is due is among those added. */
  lemma {:induction false} RowIsAdded(history: seq<Liquidation>, events: seq<EventRow>, n: nat, j: nat)
    requires j < n <= |events| && Due(history, events[j])
    ensures Decoded(events[j]) in Added(history, events[..n])
  {
    assert events[..n][j] == events[j];
    SelectHas(history, events[..n], events[j]);
    DecodedHas(Select(history, events[..n]), Decoded(events[j]));
  }

  /** If the row of event `n` does not match it and no earlier one does, a sync cut just after that row goes wrong. */
  lemma {:induction false} OwnRowMisses(history: seq<Liquidation>, events: seq<EventRow>, n: nat)
    requires n < |events| && OwnRowsFirst(history, events, n)
    requires Due(history, events[n]) && !Matches(Decoded(events[n]), events[n])
    requires forall j :: 0 <= j < n && Due(history, events[j]) ==> !Matches(Decoded(events[j]), events[n])
    ensures exists k :: 0 <= k <= |Added(history, events)| && !Resumes(history, events, k)
  {
    AddedPrefix(history, events, n);
    AddedPrefix(history, events, n + 1);
    AddedNext(history, events, n);
    var all, m := Added(history, events), |Added(history, events[..n])|;
    var done := all[..m + 1];
    assert done == Added(history, events[..n + 1]);
    RestAdded(history, events, done, n);
    AddedNext(history + done, events, n);
    RecordedJoin(history, done, events[n]);
    assert !Recorded(done, events[n]) by { NoRowMatches(history, events, n, done); }
    AddedPrefix(history + done, events, n + 1);
    assert Added(history + done, events)[0] == done[m];
    if Resumes(history, events, m + 1) {
      RepeatedRow(history, events, done);
    }
  }

  lemma {:induction false} NoRowMatches(
      history: seq<Liquidation>, events: seq<EventRow>, n: nat, done: seq<Liquidation>)
    requires n < |events| && done == Added(history, events[..n + 1])
    requires forall j :: 0 <= j <= n && Due(history, events[j]) ==> !Matches(Decoded(events[j]), events[n])
    ensures !Recorded(done, events[n])
  {
    forall k | 0 <= k < |done| ensures !Matches(done[k], events[n]) {
      var i := AddedFrom(history, events[..n + 1], k);
    }
  }

  /** If the next sync starts by inserting the last row done once more, another cut after that one goes wrong. */
  lemma {:induction false} RepeatedRow(history: seq<Liquidation>, events: seq<EventRow>, done: seq<Liquidation>)
    requires done != [] && done <= Added(history, events) && Resumes(history, events, |done|)
    requires Added(history + done, events) != [] && Added(history + done, events)[0] == done[|done| - 1]
    ensures |done| + 1 <= |Added(history, events)| && !Resumes(history, events, |done| + 1)
  {
    var all, last := Added(history, events), done[|done| - 1];
    assert all[..|done|] == done;
    var more := done + [last];
    assert all[..|done| + 1] == more;
    forall e ensures Recorded(history + done, e) <==> Recorded(history + more, e) {
      RecordedJoin(history, done, e);
      RecordedJoin(history, more, e);
      RecordedJoin(done, [last], e);
      assert Matches(last, e) ==> Recorded(done, e);
    }
    SelectAgrees(history + done, history + more, events);
  }

  lemma {:induction false} MissBreaks(history: seq<Liquidation>, events: seq<EventRow>, n: nat)
    requires n <= |events| && !OwnRowsFirst(history, events, n)
    ensures exists k :: 0 <= k <= |Added(history, events)| && !Resumes(history, events, k)
  {
    if !OwnRowsFirst(history, events, n - 1) {
      MissBreaks(history, events, n - 1);
    } else if j: nat :|
        j < n - 1 && Due(history, events[j]) && Matches(Decoded(events[j]), events[n - 1]) {
      EarlierRowLoses(history, events, n - 1, j);
    } else {
      OwnRowMisses(history, events, n - 1);
    }
  }

  /**
   Wherever a sync is cut short, it and the next full one insert together what one full sync does, if and only if each
   event it takes up is matched by its own row and by no row before that one.
   */
  lemma {:induction false} CutSyncsResume(history: seq<Liquidation>, events: seq<EventRow>)
    ensures (forall k :: 0 <= k <= |Added(history, events)| ==> Resumes(history, events, k))
       <==> OwnRowsFirst(history, events, |events|)
  {
    if OwnRowsFirst(history, events, |events|) {
      forall k | 0 <= k <= |Added(history, events)| ensures Resumes(history, events, k) {
        RestAdded(history, events, Added(history, events)[..k], |events|);
        assert events[..|events|] == events;
      }
    } else {
      MissBreaks(history, events, |events|);
    }
  }

  /** Findable events of which no two share signature and address meet the condition. */
  lemma {:induction false} FindableWithoutTwins(history: seq<Liquidation>, events: seq<EventRow>)
    requires forall e :: e in events && Liquidates(e) ==> Findable(e)
    requires forall i, j :: 0 <= i < j < |events| && Liquidates(events[i]) && Liquidates(events[j]) ==>
      events[i].signature != events[j].signature || events[i].address != events[j].address
    ensures OwnRowsFirst(history, events, |events|)
  {
    forall i | 0 <= i < |events| ensures OwnRowFirst(history, events, i) {
      assert Due(history, events[i]) ==> events[i] in events && Liquidates(events[i]) && Findable(events[i]);
      forall j | 0 <= j < i && Due(history, events[i]) && Due(history, events[j])
        ensures !Matches(Decoded(events[j]), events[i])
      {
        assert events[j] in events && Liquidates(events[j]) && Findable(events[j]);
      }
    }
  }

  lemma {:induction false} AddedOfTwo(history: seq<Liquidation>, e1: EventRow, e2: EventRow)
    ensures Added(history, [e1, e2]) == RowOf(history, e1) + RowOf(history, e2)
  {
    var events := [e1, e2];
    assert events[..0] == [] && events[..2] == events;
    AddedNext(history, events, 0);
    AddedNext(history, events, 1);
  }

  lemma {:induction false} LostForGood(e1: EventRow, e2: EventRow, times: nat)
    requires Decodable(e1) && Matches(Decoded(e1), e1) && Matches(Decoded(e1), e2)
    ensures Synced([Decoded(e1)], [e1, e2], times) == [Decoded(e1)]
  {
    if times > 0 {
      var done := [Decoded(e1)];
      LostForGood(e1, e2, times - 1);
      assert Matches(done[0], e1) && Matches(done[0], e2);
      AddedOfTwo(done, e1, e2);
    }
  }

  /**
   Twins are why: of two liquidations of one address in one transaction a full sync inserts both; if it is cut short
   between them, no later sync ever inserts the second.
   */
  lemma {:induction false} TwinIsLost(e1: EventRow, e2: EventRow, times: nat)
    requires Liquidates(e1) && Liquidates(e2) && Findable(e1) && Findable(e2)
    requires e1.signature == e2.signature && e1.address == e2.address
    ensures Added([], [e1, e2]) == [Decoded(e1), Decoded(e2)]
    ensures Synced(Added([], [e1, e2])[..1], [e1, e2], times) == [Decoded(e1)]
  {
    AddedOfTwo([], e1, e2);
    LostForGood(e1, e2, times);
  }
}
