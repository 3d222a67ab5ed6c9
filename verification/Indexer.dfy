/**
 The on-chain event indexer (backend/src/indexer.rs): polling one program's append-only history with a
 persisted cursor and a batch limit.
 */
module Indexer {
  import opened Sequences
  import opened Wrappers

  // These are only stored and compared, so numbers stand for them.
  type Program = nat
  type Signature = nat
  type Event = nat

  const SIG_BATCH: nat := 50

  /** A transaction of the program, with the events its log lines parse to. */
  datatype Tx = Tx(signature: Signature, failed: bool, events: seq<Event>)

  /** Oldest first. */
  type Chain = seq<Tx>

  predicate UniqueSignatures(chain: Chain) {
    forall i, j :: 0 <= i < j < |chain| ==> chain[i].signature != chain[j].signature
  }

  /** A row of `event_log`. */
  datatype LogRow = LogRow(signature: Signature, event: Event)

  /** What becomes of one `getTransaction` call: after `inserted` rows the next insert fails. */
  datatype TxResponse = RpcFailed | NotFound | Found(events: seq<Event>, inserted: nat)

  // ----- Positions on the chain -----

  /** How many of the first `n` transactions are not newer than the cursor. */
  function Passed(chain: Chain, cursor: Option<Signature>, n: nat): (p: nat)
    requires n <= |chain|
    ensures p <= n
  {
    if n == 0 || cursor.None? then 0
    else if chain[n - 1].signature == cursor.value then n
    else Passed(chain, cursor, n - 1)
  }

  /** Where the batch of a poll starts: after the cursor, and at most SIG_BATCH from the end. */
  function BatchStart(chain: Chain, passed: nat): (lo: nat)
    requires passed <= |chain|
    ensures passed <= lo <= |chain| && |chain| - lo <= SIG_BATCH
  {
    if |chain| - passed > SIG_BATCH then |chain| - SIG_BATCH else passed
  }

  /** The positions of the successful transactions from `lo` up to `hi`, oldest first. */
  function Successes(chain: Chain, lo: nat, hi: nat): (ps: seq<nat>)
    requires lo <= hi <= |chain|
    ensures forall i :: 0 <= i < |ps| ==> lo <= ps[i] < hi
  {
    if lo == hi then []
    else if chain[hi - 1].failed then Successes(chain, lo, hi - 1)
    else Successes(chain, lo, hi - 1) + [hi - 1]
  }

  predicate Succeeds(chain: Chain, p: nat) {
    p < |chain| && !chain[p].failed
  }

  predicate OnChain(chain: Chain, ps: seq<nat>) {
    forall i :: 0 <= i < |ps| ==> ps[i] < |chain|
  }

  /** The positions a poll with this cursor takes up. */
  function BatchOf(chain: Chain, cursor: Option<Signature>): (ps: seq<nat>)
    ensures OnChain(chain, ps)
  {
    Successes(chain, BatchStart(chain, Passed(chain, cursor, |chain|)), |chain|)
  }

  function SignaturesAt(chain: Chain, ps: seq<nat>): (ss: seq<Signature>)
    requires OnChain(chain, ps)
    ensures |ss| == |ps|
  {
    seq(|ps|, i requires 0 <= i < |ps| => chain[ps[i]].signature)
  }

  function Least(a: nat, b: nat): nat {
    if a <= b then a else b
  }

  // ----- Rows written -----

  function RowsFrom(signature: Signature, events: seq<Event>): seq<LogRow> {
    seq(|events|, i requires 0 <= i < |events| => LogRow(signature, events[i]))
  }

  function RowsOf(signature: Signature, response: TxResponse): seq<LogRow> {
    match response
    case Found(events, inserted) => RowsFrom(signature, if inserted < |events| then events[..inserted] else events)
    case _ => []
  }

  /** The rows written for a transaction are its events, in order, up to the failing insert. */
  lemma {:induction false} RowsCarryEvents(signature: Signature, events: seq<Event>, inserted: nat)
    ensures var rows := RowsOf(signature, Found(events, inserted));
      && |rows| == (if inserted < |events| then inserted else |events|)
      && forall i :: 0 <= i < |rows| ==> rows[i] == LogRow(signature, events[i])
    ensures RowsOf(signature, RpcFailed) == [] && RowsOf(signature, NotFound) == []
  {
  }

  function RowsOfAll(signatures: seq<Signature>, rpc: Signature -> TxResponse): seq<LogRow> {
    if signatures == [] then []
    else RowsOfAll(signatures[..|signatures| - 1], rpc)
         + RowsOf(signatures[|signatures| - 1], rpc(signatures[|signatures| - 1]))
  }

  // ----- The program -----

  /** An item of the node's answer to `getSignaturesForAddress`; its signature may be missing. */
  datatype Item = Item(signature: Option<Signature>, failed: bool)

  datatype Listing = ListingFailed | Listed(items: seq<Item>)

  datatype PollError = CursorNotRead | NotListed | CursorNotWritten | Killed

  /** What a node that knows the chain answers: newest first, back to `until` or to the limit. */
  function SignaturesForAddress(chain: Chain, until: Option<Signature>): (items: seq<Item>)
  {
    var newest := Reversed(chain[BatchStart(chain, Passed(chain, until, |chain|))..]);
    seq(|newest|, i requires 0 <= i < |newest| => Item(Some(newest[i].signature), newest[i].failed))
  }

  lemma {:induction false} AnswerAt(chain: Chain, until: Option<Signature>, i: nat)
    requires i < |SignaturesForAddress(chain, until)|
    ensures i < |chain|
    ensures var tx := chain[|chain| - 1 - i];
      SignaturesForAddress(chain, until)[i] == Item(Some(tx.signature), tx.failed)
  {
    var newer := chain[BatchStart(chain, Passed(chain, until, |chain|))..];
    ReversedAt(newer, |newer| - 1 - i);
  }

  /** The signatures of the items that have one and have not failed, in the order of the answer. */
  function Readable(items: seq<Item>): seq<Signature> {
    if items == [] then []
    else
      var init, last := items[..|items| - 1], items[|items| - 1];
      if last.failed || last.signature.None? then Readable(init) else Readable(init) + [last.signature.value]
  }

  lemma {:induction false} SuccessesSplit(chain: Chain, lo: nat, mid: nat, hi: nat)
    requires lo <= mid <= hi <= |chain|
    ensures Successes(chain, lo, hi) == Successes(chain, lo, mid) + Successes(chain, mid, hi)
    decreases hi
  {
    if mid < hi {
      SuccessesSplit(chain, lo, mid, hi - 1);
    }
  }

  lemma {:induction false} SuccessesFrom(chain: Chain, p: nat)
    requires p < |chain|
    ensures var newer := Successes(chain, p + 1, |chain|);
      Successes(chain, p, |chain|) == if chain[p].failed then newer else [p] + newer
  {
    SuccessesSplit(chain, p, p + 1, |chain|);
    assert Successes(chain, p, p) == [];
  }

  /** The signatures of the successful transactions from position `p` on, newest first. */
  function NewestFrom(chain: Chain, p: nat): seq<Signature>
    requires p <= |chain|
  {
    Reversed(SignaturesAt(chain, Successes(chain, p, |chain|)))
  }

  lemma {:induction false} PrependSignature(chain: Chain, p: nat, newer: seq<nat>)
    requires p < |chain| && OnChain(chain, newer)
    ensures Reversed(SignaturesAt(chain, [p] + newer))
         == Reversed(SignaturesAt(chain, newer)) + [chain[p].signature]
  {
    assert SignaturesAt(chain, [p] + newer)[1..] == SignaturesAt(chain, newer);
  }

  lemma {:induction false} OlderStill(chain: Chain, p: nat)
    requires p < |chain|
    ensures NewestFrom(chain, p)
         == if chain[p].failed then NewestFrom(chain, p + 1) else NewestFrom(chain, p + 1) + [chain[p].signature]
  {
    SuccessesFrom(chain, p);
    if !chain[p].failed {
      PrependSignature(chain, p, Successes(chain, p + 1, |chain|));
    }
  }

  lemma {:induction false} ReadableNext(items: seq<Item>, n: nat)
    requires 0 < n <= |items|
    ensures var last := items[n - 1];
      Readable(items[..n])
      == Readable(items[..n - 1]) + if last.failed || last.signature.None? then [] else [last.signature.value]
  {
    assert items[..n][..n - 1] == items[..n - 1];
  }

  /** The items name the newest transactions of the chain, newest first. */
  predicate Truthful(chain: Chain, items: seq<Item>) {
    && |items| <= |chain|
    && forall i :: 0 <= i < |items| ==>
         items[i] == Item(Some(chain[|chain| - 1 - i].signature), chain[|chain| - 1 - i].failed)
  }

  lemma {:induction false} NoneNewer(chain: Chain)
    ensures NewestFrom(chain, |chain|) == []
  {
    assert SignaturesAt(chain, Successes(chain, |chain|, |chain|)) == [];
  }

  lemma {:induction false} ReadsOneMore(chain: Chain, items: seq<Item>, n: nat, p: nat)
    requires 0 < n <= |items| && p < |chain| && items[n - 1] == Item(Some(chain[p].signature), chain[p].failed)
    requires Readable(items[..n - 1]) == NewestFrom(chain, p + 1)
    ensures Readable(items[..n]) == NewestFrom(chain, p)
  {
    ReadableNext(items, n);
    OlderStill(chain, p);
  }

  lemma {:induction false} ReadableFrom(chain: Chain, items: seq<Item>, n: nat)
    requires Truthful(chain, items) && n <= |items|
    ensures Readable(items[..n]) == NewestFrom(chain, |chain| - n)
  {
    if n == 0 {
      NoneNewer(chain);
    } else {
      ReadableFrom(chain, items, n - 1);
      ReadsOneMore(chain, items, n, |chain| - n);
    }
  }

  /** From a truthful answer the successes of the batch are read, newest first. */
  lemma {:induction false} TruthIsReadable(chain: Chain, until: Option<Signature>)
    ensures Readable(SignaturesForAddress(chain, until)) == Reversed(SignaturesAt(chain, BatchOf(chain, until)))
  {
    var items := SignaturesForAddress(chain, until);
    assert Truthful(chain, items) by {
      forall i | 0 <= i < |items|
        ensures items[i] == Item(Some(chain[|chain| - 1 - i].signature), chain[|chain| - 1 - i].failed)
      {
        AnswerAt(chain, until, i);
      }
    }
    ReadableFrom(chain, items, |items|);
    assert items[..|items|] == items;
  }

  /** Skips the failed transactions of the answer, and items without a signature. */
  method FetchSignatures(answer: Listing) returns (r: Result<seq<Signature>, PollError>)
    ensures r == match answer
      case ListingFailed => Err(NotListed)
      case Listed(items) => Ok(Readable(items))
  {
    if answer.ListingFailed? {
      return Err(NotListed);
    }
    var out := [];
    for i := 0 to |answer.items|
      invariant out == Readable(answer.items[..i])
    {
      var item := answer.items[i];
      assert answer.items[..i + 1][..i] == answer.items[..i];
      if item.failed {
        continue;
      }
      if item.signature.None? {
        continue;
      }
      out := out + [item.signature.value];
    }
    assert answer.items[..|answer.items|] == answer.items;
    r := Ok(out);
  }

  class Store {
    var cursors: map<Program, Signature>
    var eventLog: seq<LogRow>

    constructor ()
      ensures cursors == map[] && eventLog == []
    {
      cursors, eventLog := map[], [];
    }

    function Cursor(program: Program): Option<Signature>
      reads this
    {
      if program in cursors then Some(cursors[program]) else None
    }

    method GetCursor(program: Program, dbOk: bool) returns (r: Result<Option<Signature>, PollError>)
      ensures r == if dbOk then Ok(Cursor(program)) else Err(CursorNotRead)
    {
      if !dbOk {
        return Err(CursorNotRead);
      }
      r := Ok(if program in cursors then Some(cursors[program]) else None);
    }

    method SetCursor(program: Program, signature: Signature, dbOk: bool) returns (r: Result<(), PollError>)
      modifies this`cursors
      ensures r == if dbOk then Ok(()) else Err(CursorNotWritten)
      ensures cursors == if dbOk then old(cursors)[program := signature] else old(cursors)
    {
      if !dbOk {
        return Err(CursorNotWritten);
      }
      cursors := cursors[program := signature];
      r := Ok(());
    }

    method InsertEvent(row: LogRow)
      modifies this`eventLog
      ensures eventLog == old(eventLog) + [row]
    {
      eventLog := eventLog + [row];
    }
  }

  /** The rows of one transaction, in the order of its log lines, until an insert fails. */
  method FetchAndIndexTx(db: Store, signature: Signature, response: TxResponse) returns (r: Result<nat, ()>)
    modifies db
    ensures db.cursors == old(db.cursors)
    ensures db.eventLog == old(db.eventLog) + RowsOf(signature, response)
    ensures response.Found? ==>
      && |db.eventLog| == |old(db.eventLog)| + Least(response.inserted, |response.events|)
      && forall i :: 0 <= i < Least(response.inserted, |response.events|) ==>
           db.eventLog[|old(db.eventLog)| + i] == LogRow(signature, response.events[i])
    ensures r == match response
      case RpcFailed => Err(())
      case NotFound => Ok(0)
      case Found(events, inserted) => if inserted < |events| then Err(()) else Ok(|events|)
  {
    if response.RpcFailed? {
      return Err(());
    }
    if response.NotFound? {
      return Ok(0);
    }
    var count := 0;
    while count < |response.events|
      invariant count <= |response.events| && count <= response.inserted
      invariant db.cursors == old(db.cursors)
      invariant db.eventLog == old(db.eventLog) + RowsFrom(signature, response.events[..count])
    {
      if count == response.inserted {
        return Err(());
      }
      db.InsertEvent(LogRow(signature, response.events[count]));
      count := count + 1;
    }
    r := Ok(count);
  }

  /**
   Indexes the transactions of a newest-first list oldest first, until the process dies after `life` of them. Errors of
   single ones are only logged.
   */
  method IndexOldestFirst(db: Store, signatures: seq<Signature>, rpc: Signature -> TxResponse, life: nat,
                          ghost oldestFirst: seq<Signature>) returns (alive: bool)
    requires signatures == Reversed(oldestFirst)
    modifies db
    ensures alive <==> life >= |signatures|
    ensures db.cursors == old(db.cursors)
    ensures db.eventLog == old(db.eventLog) + RowsOfAll(oldestFirst[..Least(life, |oldestFirst|)], rpc)
  {
    for i := 0 to |signatures|
      invariant i <= life
      invariant db.cursors == old(db.cursors)
      invariant db.eventLog == old(db.eventLog) + RowsOfAll(oldestFirst[..i], rpc)
    {
      if i == life {
        return false;
      }
      var signature := signatures[|signatures| - 1 - i];
      ReversedAt(oldestFirst, i);
      assert oldestFirst[..i + 1] == oldestFirst[..i] + [signature];
      RowsExtend(old(db.eventLog), oldestFirst[..i], signature, rpc);
      var _ := FetchAndIndexTx(db, signature, rpc(signature));
    }
    alive := true;
  }

  lemma {:induction false} RowsExtend(
      log: seq<LogRow>, signatures: seq<Signature>, signature: Signature, rpc: Signature -> TxResponse)
    ensures log + RowsOfAll(signatures + [signature], rpc)
         == log + RowsOfAll(signatures, rpc) + RowsOf(signature, rpc(signature))
  {
    assert (signatures + [signature])[..|signatures|] == signatures;
  }

  lemma {:induction false} NewestIsLast(chain: Chain, ps: seq<nat>)
    requires OnChain(chain, ps) && ps != []
    ensures Reversed(SignaturesAt(chain, ps))[0] == chain[ps[|ps| - 1]].signature
  {
    ReversedAt(SignaturesAt(chain, ps), |ps| - 1);
  }

  /**
   What happens during a poll: whether the cursor can be read, the node answers and the cursor can be written, what each
   transaction is answered with, and after how many of them the process dies.
   */
  datatype World = World(
    cursorReadOk: bool, listOk: bool, rpc: Signature -> TxResponse, life: nat, cursorWriteOk: bool)

  /** How many of them it gets done. */
  function DoneBy(world: World, ps: seq<nat>): (done: nat)
    ensures done <= |ps|
  {
    if world.cursorReadOk && world.listOk then Least(world.life, |ps|) else 0
  }

  predicate Completes(world: World, ps: seq<nat>) {
    world.cursorReadOk && world.listOk && world.life >= |ps| && world.cursorWriteOk
  }

  /** The poll from the listed signatures on. */
  method WorkThrough(db: Store, program: Program, signatures: seq<Signature>, world: World,
                     ghost chain: Chain, ghost ps: seq<nat>) returns (r: Result<(), PollError>)
    requires OnChain(chain, ps) && ps != [] && signatures == Reversed(SignaturesAt(chain, ps))
    requires world.cursorReadOk && world.listOk
    modifies db
    ensures db.eventLog == old(db.eventLog) + RowsOfAll(SignaturesAt(chain, ps[..DoneBy(world, ps)]), world.rpc)
    ensures db.cursors == if Completes(world, ps) then old(db.cursors)[program := chain[ps[|ps| - 1]].signature]
                          else old(db.cursors)
    ensures r.Ok? <==> Completes(world, ps)
  {
    NewestIsLast(chain, ps);
    var alive := IndexOldestFirst(db, signatures, world.rpc, world.life, SignaturesAt(chain, ps));
    assert SignaturesAt(chain, ps)[..DoneBy(world, ps)] == SignaturesAt(chain, ps[..DoneBy(world, ps)]);
    if !alive {
      return Err(Killed);
    }
    r := db.SetCursor(program, signatures[0], world.cursorWriteOk);
  }

  /**
   One poll: what it gets done is written, and the cursor goes to the newest success of its batch if it completes, and
   stays where it is if it does not.
   */
  method PollProgram(db: Store, program: Program, chain: Chain, world: World) returns (r: Result<(), PollError>)
    modifies db
    ensures var ps := BatchOf(chain, old(db.Cursor(program)));
      && db.eventLog == old(db.eventLog) + RowsOfAll(SignaturesAt(chain, ps[..DoneBy(world, ps)]), world.rpc)
      && db.cursors == (if ps != [] && Completes(world, ps)
                        then old(db.cursors)[program := chain[ps[|ps| - 1]].signature] else old(db.cursors))
      && (r.Ok? <==> world.cursorReadOk && world.listOk && (ps == [] || Completes(world, ps)))
  {
    var cursor :- db.GetCursor(program, world.cursorReadOk);
    var answer := if world.listOk then Listed(SignaturesForAddress(chain, cursor)) else ListingFailed;
    var signatures :- FetchSignatures(answer);
    ghost var ps := BatchOf(chain, cursor);
    assert signatures == Reversed(SignaturesAt(chain, ps)) by { TruthIsReadable(chain, cursor); }
    if signatures == [] {
      return Ok(());
    }
    r := WorkThrough(db, program, signatures, world, chain, ps);
  }
}
