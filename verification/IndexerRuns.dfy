/**
 Whole runs of the indexer for one program: the chain grows, polls complete or are cut off before the
 cursor is written, and each transaction is accounted for (backend/src/indexer.rs).
 */
module IndexerRuns {
  import opened Wrappers
  import opened Indexer

  /** A success the cursor went past unread, and the length of the chain at the poll that did so. */
  datatype Skip = Skip(position: nat, length: nat)

  /**
   `passed` is the number of transactions not newer than the cursor. `attempts` are the positions handed to
   `fetch_and_index_tx`, `rows` what that wrote; `replays` are the attempts of polls that were cut off.
   */
  datatype State = State(
    chain: Chain,
    passed: nat,
    attempts: seq<nat>,
    rows: seq<LogRow>,
    skipped: seq<Skip>,
    replays: seq<nat>)

  const INIT := State([], 0, [], [], [], [])

  datatype Action =
    | Grow(tx: Tx)
    | Poll(rpc: Signature -> TxResponse)
    /** Cut off after `done` transactions: a crash, or an error writing the cursor. */
    | CutOff(rpc: Signature -> TxResponse, done: nat)

  ghost function Batch(s: State): seq<nat>
    requires s.passed <= |s.chain|
  {
    Successes(s.chain, BatchStart(s.chain, s.passed), |s.chain|)
  }

  function SkipsAt(ps: seq<nat>, length: nat): seq<Skip> {
    seq(|ps|, i requires 0 <= i < |ps| => Skip(ps[i], length))
  }

  function SkippedPositions(skips: seq<Skip>): seq<nat> {
    seq(|skips|, i requires 0 <= i < |skips| => skips[i].position)
  }

  ghost predicate Enabled(s: State, a: Action) {
    && s.passed <= |s.chain|
    && match a
       case Grow(tx) => forall i :: 0 <= i < |s.chain| ==> s.chain[i].signature != tx.signature
       case Poll(_) => true
       case CutOff(_, done) => done <= |Batch(s)|
  }

  ghost function Apply(s: State, a: Action): State
    requires Enabled(s, a)
  {
    match a
    case Grow(tx) => s.(chain := s.chain + [tx])
    case Poll(rpc) =>
      var ps := Batch(s);
      if ps == [] then s
      else
        s.(passed := ps[|ps| - 1] + 1,
           attempts := s.attempts + ps,
           rows := s.rows + RowsOfAll(SignaturesAt(s.chain, ps), rpc),
           skipped := s.skipped
             + SkipsAt(Successes(s.chain, s.passed, BatchStart(s.chain, s.passed)), |s.chain|))
    case CutOff(rpc, done) =>
      var ps := Batch(s)[..done];
      s.(attempts := s.attempts + ps,
         rows := s.rows + RowsOfAll(SignaturesAt(s.chain, ps), rpc),
         replays := s.replays + ps)
  }

  ghost predicate ValidRun(s: State, acts: seq<Action>)
    decreases |acts|
  {
    acts == [] || (Enabled(s, acts[0]) && ValidRun(Apply(s, acts[0]), acts[1..]))
  }

  ghost function After(s: State, acts: seq<Action>): State
    requires ValidRun(s, acts)
    decreases |acts|
  {
    if acts == [] then s else After(Apply(s, acts[0]), acts[1..])
  }

  // ----- Successes -----

  lemma {:induction false} SuccessesGrow(chain: Chain, tx: Tx, lo: nat, hi: nat)
    requires lo <= hi <= |chain|
    ensures Successes(chain + [tx], lo, hi) == Successes(chain, lo, hi)
    decreases hi
  {
    if lo < hi {
      SuccessesGrow(chain, tx, lo, hi - 1);
    }
  }

  /** Nothing succeeds after the last success. */
  lemma {:induction false} UpToLastSuccess(chain: Chain, lo: nat, hi: nat)
    requires lo <= hi <= |chain| && Successes(chain, lo, hi) != []
    ensures var ps := Successes(chain, lo, hi);
      Successes(chain, lo, ps[|ps| - 1] + 1) == ps
    decreases hi
  {
    if chain[hi - 1].failed {
      UpToLastSuccess(chain, lo, hi - 1);
    }
  }

  predicate Ascending(ps: seq<nat>) {
    forall i, j :: 0 <= i < j < |ps| ==> ps[i] < ps[j]
  }

  lemma {:induction false} SuccessesAscend(chain: Chain, lo: nat, hi: nat)
    requires lo <= hi <= |chain|
    ensures Ascending(Successes(chain, lo, hi))
    decreases hi
  {
    if lo < hi {
      SuccessesAscend(chain, lo, hi - 1);
    }
  }

  lemma {:induction false} SuccessesContain(chain: Chain, lo: nat, hi: nat, p: nat)
    requires lo <= hi <= |chain|
    ensures p in Successes(chain, lo, hi) <==> lo <= p < hi && Succeeds(chain, p)
    decreases hi
  {
    if lo < hi {
      SuccessesContain(chain, lo, hi - 1, p);
    }
  }

  lemma {:induction false} CountOneMore(ps: seq<nat>, last: nat, p: nat)
    ensures multiset(ps + [last])[p] == multiset(ps)[p] + if p == last then 1 else 0
  {
    assert multiset(ps + [last]) == multiset(ps) + multiset{last};
  }

  lemma {:induction false} AscendingCount(ps: seq<nat>, p: nat)
    requires Ascending(ps)
    ensures multiset(ps)[p] == if p in ps then 1 else 0
    decreases |ps|
  {
    if ps != [] {
      var init, last := ps[..|ps| - 1], ps[|ps| - 1];
      AscendingCount(init, p);
      CountOneMore(init, last, p);
      assert ps == init + [last];
    }
  }

  lemma {:induction false} SuccessesAreAll(chain: Chain, lo: nat, hi: nat, p: nat)
    requires lo <= hi <= |chain|
    ensures multiset(Successes(chain, lo, hi))[p] == if lo <= p < hi && Succeeds(chain, p) then 1 else 0
  {
    SuccessesAscend(chain, lo, hi);
    SuccessesContain(chain, lo, hi, p);
    AscendingCount(Successes(chain, lo, hi), p);
  }

  // ----- Accounting -----

  /** Every attempt and every success the cursor has passed is accounted for. */
  ghost predicate Balanced(s: State) {
    && UniqueSignatures(s.chain)
    && s.passed <= |s.chain|
    && multiset(s.attempts) + multiset(SkippedPositions(s.skipped))
       == multiset(Successes(s.chain, 0, s.passed)) + multiset(s.replays)
    && (forall i :: 0 <= i < |s.skipped| ==>
          s.skipped[i].position + SIG_BATCH < s.skipped[i].length <= |s.chain|)
  }

  lemma {:induction false} SkipsAdd(skips: seq<Skip>, ps: seq<nat>, length: nat)
    ensures SkippedPositions(skips + SkipsAt(ps, length)) == SkippedPositions(skips) + ps
  {
  }

  /** The successes up to the new cursor are those up to the old one, the skipped ones and the batch. */
  lemma {:induction false} PollReaches(chain: Chain, passed: nat, ps: seq<nat>)
    requires passed <= |chain| && ps == Successes(chain, BatchStart(chain, passed), |chain|) && ps != []
    ensures passed <= ps[|ps| - 1] < |chain|
    ensures Successes(chain, 0, ps[|ps| - 1] + 1)
         == Successes(chain, 0, passed) + Successes(chain, passed, BatchStart(chain, passed)) + ps
  {
    var lo, reached := BatchStart(chain, passed), ps[|ps| - 1] + 1;
    assert Successes(chain, lo, reached) == ps by { UpToLastSuccess(chain, lo, |chain|); }
    SuccessesSplit(chain, 0, lo, reached);
    SuccessesSplit(chain, 0, passed, lo);
  }

  lemma {:induction false} Regroup(
      attempts: multiset<nat>, skips: multiset<nat>, done: multiset<nat>, replays: multiset<nat>,
      more: multiset<nat>, ps: multiset<nat>)
    requires attempts + skips == done + replays
    ensures (attempts + ps) + (skips + more) == (done + more + ps) + replays
    ensures (attempts + ps) + skips == done + (replays + ps)
  {
    forall p: nat
      ensures ((attempts + ps) + (skips + more))[p] == ((done + more + ps) + replays)[p]
      ensures ((attempts + ps) + skips)[p] == (done + (replays + ps))[p]
    {
      assert (attempts + skips)[p] == (done + replays)[p];
    }
  }

  lemma {:induction false} SumOf(a: seq<nat>, b: seq<nat>)
    ensures multiset(a + b) == multiset(a) + multiset(b)
  {
  }

  lemma {:induction false} BalancedPoll(
      attempts: seq<nat>, skips: seq<nat>, done: seq<nat>, replays: seq<nat>, more: seq<nat>, ps: seq<nat>)
    requires multiset(attempts) + multiset(skips) == multiset(done) + multiset(replays)
    ensures multiset(attempts + ps) + multiset(skips + more) == multiset(done + more + ps) + multiset(replays)
  {
    SumOf(attempts, ps);
    SumOf(skips, more);
    SumOf(done, more);
    SumOf(done + more, ps);
    Regroup(multiset(attempts), multiset(skips), multiset(done), multiset(replays), multiset(more), multiset(ps));
  }

  lemma {:induction false} BalancedCutOff(
      attempts: seq<nat>, skips: seq<nat>, done: seq<nat>, replays: seq<nat>, ps: seq<nat>)
    requires multiset(attempts) + multiset(skips) == multiset(done) + multiset(replays)
    ensures multiset(attempts + ps) + multiset(skips) == multiset(done) + multiset(replays + ps)
  {
    SumOf(attempts, ps);
    SumOf(replays, ps);
    Regroup(multiset(attempts), multiset(skips), multiset(done), multiset(replays), multiset{}, multiset(ps));
  }

  lemma {:induction false} SkipsAreOld(s: State, skips: seq<nat>)
    requires Balanced(s) && skips == Successes(s.chain, s.passed, BatchStart(s.chain, s.passed))
    ensures var skipped := s.skipped + SkipsAt(skips, |s.chain|);
      forall i :: 0 <= i < |skipped| ==> skipped[i].position + SIG_BATCH < skipped[i].length <= |s.chain|
  {
  }

  /** The fields of the state after a poll that finds something. */
  ghost predicate PollsTo(s: State, s': State, rpc: Signature -> TxResponse, ps: seq<nat>)
    requires s.passed <= |s.chain| && ps != [] && OnChain(s.chain, ps)
  {
    && s'.chain == s.chain
    && s'.passed == ps[|ps| - 1] + 1
    && s'.attempts == s.attempts + ps
    && s'.rows == s.rows + RowsOfAll(SignaturesAt(s.chain, ps), rpc)
    && s'.skipped == s.skipped + SkipsAt(Successes(s.chain, s.passed, BatchStart(s.chain, s.passed)), |s.chain|)
    && s'.replays == s.replays
  }

  lemma {:induction false} PollAccounts(s: State, s': State, rpc: Signature -> TxResponse, ps: seq<nat>)
    requires Balanced(s) && ps == Batch(s) && ps != [] && PollsTo(s, s', rpc, ps)
    ensures s'.passed <= |s.chain|
    ensures multiset(s'.attempts) + multiset(SkippedPositions(s'.skipped))
         == multiset(Successes(s.chain, 0, s'.passed)) + multiset(s'.replays)
  {
    var skips := Successes(s.chain, s.passed, BatchStart(s.chain, s.passed));
    PollReaches(s.chain, s.passed, ps);
    SkipsAdd(s.skipped, skips, |s.chain|);
    BalancedPoll(s.attempts, SkippedPositions(s.skipped), Successes(s.chain, 0, s.passed), s.replays, skips, ps);
  }

  lemma {:induction false} PollBalances(s: State, rpc: Signature -> TxResponse)
    requires Balanced(s)
    ensures Balanced(Apply(s, Poll(rpc)))
  {
    if Batch(s) != [] {
      PollAccounts(s, Apply(s, Poll(rpc)), rpc, Batch(s));
      SkipsAreOld(s, Successes(s.chain, s.passed, BatchStart(s.chain, s.passed)));
    }
  }

  lemma {:induction false} CutOffBalances(s: State, a: Action)
    requires Balanced(s) && a.CutOff? && Enabled(s, a)
    ensures Balanced(Apply(s, a))
  {
    BalancedCutOff(s.attempts, SkippedPositions(s.skipped), Successes(s.chain, 0, s.passed), s.replays,
                   Batch(s)[..a.done]);
  }

  lemma {:induction false} StepBalances(s: State, a: Action)
    requires Balanced(s) && Enabled(s, a)
    ensures Balanced(Apply(s, a))
  {
    match a
    case Grow(tx) => SuccessesGrow(s.chain, tx, 0, s.passed);
    case Poll(rpc) => PollBalances(s, rpc);
    case CutOff(_, _) => CutOffBalances(s, a);
  }

  lemma {:induction false} CursorAdvances(s: State, a: Action)
    requires Balanced(s) && Enabled(s, a)
    ensures s.passed <= Apply(s, a).passed
  {
  }

  /** The cursor never moves back, and the accounts always balance. */
  lemma {:induction false} RunBalances(s: State, acts: seq<Action>)
    requires Balanced(s) && ValidRun(s, acts)
    ensures Balanced(After(s, acts)) && s.passed <= After(s, acts).passed
    decreases |acts|
  {
    if acts != [] {
      StepBalances(s, acts[0]);
      CursorAdvances(s, acts[0]);
      RunBalances(Apply(s, acts[0]), acts[1..]);
    }
  }

  /**
   How often a transaction has been attempted, in any run: once if it is a success the cursor has passed,
   less the times it was skipped, plus the times a poll that was cut off had got to it.
   */
  lemma {:induction false} AttemptsOf(acts: seq<Action>, p: nat)
    requires ValidRun(INIT, acts)
    ensures var s := After(INIT, acts);
      multiset(s.attempts)[p] + multiset(SkippedPositions(s.skipped))[p]
      == (if p < s.passed <= |s.chain| && !s.chain[p].failed then 1 else 0) + multiset(s.replays)[p]
  {
    RunBalances(INIT, acts);
    var s := After(INIT, acts);
    SuccessesAreAll(s.chain, 0, s.passed, p);
    assert (multiset(s.attempts) + multiset(SkippedPositions(s.skipped)))[p]
        == (multiset(Successes(s.chain, 0, s.passed)) + multiset(s.replays))[p];
  }

  /**
   A success the cursor has passed was left unattempted only if it lay beyond the newest 50
   transactions at a poll.
   */
  lemma {:induction false} OnlyBurstsAreSkipped(acts: seq<Action>, p: nat)
    requires ValidRun(INIT, acts)
    requires var s := After(INIT, acts);
      p < s.passed <= |s.chain| && !s.chain[p].failed && p !in s.attempts
    ensures var s := After(INIT, acts);
      exists i :: 0 <= i < |s.skipped| && s.skipped[i].position == p && p + 50 < s.skipped[i].length
  {
    AttemptsOf(acts, p);
    RunBalances(INIT, acts);
    var s := After(INIT, acts);
    assert multiset(SkippedPositions(s.skipped))[p] > 0;
    assert p in SkippedPositions(s.skipped);
    var i :| 0 <= i < |s.skipped| && SkippedPositions(s.skipped)[i] == p;
  }

  // ----- Order -----

  predicate Uninterrupted(acts: seq<Action>) {
    forall i :: 0 <= i < |acts| ==> !acts[i].CutOff?
  }

  predicate InOrder(s: State) {
    Ascending(s.attempts) && forall i :: 0 <= i < |s.attempts| ==> s.attempts[i] < s.passed
  }

  /** Without interruptions the attempts go strictly up the chain, bursts or not, and stay below the cursor. */
  lemma {:induction false} AttemptsAscend(s: State, acts: seq<Action>)
    requires Balanced(s) && InOrder(s) && ValidRun(s, acts) && Uninterrupted(acts)
    ensures InOrder(After(s, acts))
    decreases |acts|
  {
    if acts != [] {
      StepBalances(s, acts[0]);
      if acts[0].Poll? {
        SuccessesAscend(s.chain, BatchStart(s.chain, s.passed), |s.chain|);
        PollAscends(s, acts[0].rpc);
      }
      AttemptsAscend(Apply(s, acts[0]), acts[1..]);
    }
  }

  lemma {:induction false} PollAscends(s: State, rpc: Signature -> TxResponse)
    requires Balanced(s) && InOrder(s) && Ascending(Batch(s))
    ensures InOrder(Apply(s, Poll(rpc)))
  {
  }

  lemma {:induction false} PrefixHasNone(ps: seq<nat>, n: nat, p: nat)
    requires n <= |ps| && p !in ps
    ensures multiset(ps[..n])[p] == 0
  {
    assert p !in ps[..n];
  }

  lemma {:induction false} StepAddsNone(s: State, a: Action, p: nat)
    requires Balanced(s) && Enabled(s, a) && p < s.passed
    ensures multiset(Apply(s, a).attempts)[p] == multiset(s.attempts)[p]
  {
    if !a.Grow? {
      assert p !in Batch(s);
      var added := if a.Poll? then Batch(s) else Batch(s)[..a.done];
      PrefixHasNone(Batch(s), |added|, p);
      assert added == Batch(s)[..|added|];
      assert multiset(s.attempts + added) == multiset(s.attempts) + multiset(added);
    }
  }

  /** What the cursor has passed is never attempted again, not even after an RPC error or an interruption. */
  lemma {:induction false} PassedIsNeverRevisited(s: State, acts: seq<Action>, p: nat)
    requires Balanced(s) && ValidRun(s, acts) && p < s.passed
    ensures multiset(After(s, acts).attempts)[p] == multiset(s.attempts)[p]
    decreases |acts|
  {
    if acts != [] {
      StepBalances(s, acts[0]);
      CursorAdvances(s, acts[0]);
      StepAddsNone(s, acts[0], p);
      PassedIsNeverRevisited(Apply(s, acts[0]), acts[1..], p);
    }
  }

  // ----- Exactly once -----

  /** Each poll finds at most 50 transactions newer than the cursor, and no call of it fails. */
  ghost predicate Quiet(s: State, acts: seq<Action>)
    requires ValidRun(s, acts)
    decreases |acts|
  {
    acts == [] ||
    var a := acts[0];
    && !a.CutOff?
    && (a.Poll? ==> |s.chain| - s.passed <= 50 && Honest(s.chain, a.rpc))
    && Quiet(Apply(s, a), acts[1..])
  }

  /** Every transaction is found and all its rows are written. */
  ghost predicate Honest(chain: Chain, rpc: Signature -> TxResponse) {
    forall i :: 0 <= i < |chain| ==> rpc(chain[i].signature) == Found(chain[i].events, |chain[i].events|)
  }

  /** The events of the successful ones among the first `n` transactions, in chain order. */
  function EventsUpTo(chain: Chain, n: nat): seq<LogRow>
    requires n <= |chain|
  {
    if n == 0 then []
    else if chain[n - 1].failed then EventsUpTo(chain, n - 1)
    else EventsUpTo(chain, n - 1) + RowsFrom(chain[n - 1].signature, chain[n - 1].events)
  }

  lemma {:induction false} OneMoreSuccess(
      chain: Chain, log: seq<LogRow>, ps: seq<nat>, p: nat, rpc: Signature -> TxResponse)
    requires OnChain(chain, ps) && p < |chain| && Honest(chain, rpc) && !chain[p].failed
    requires log + RowsOfAll(SignaturesAt(chain, ps), rpc) == EventsUpTo(chain, p)
    ensures log + RowsOfAll(SignaturesAt(chain, ps + [p]), rpc) == EventsUpTo(chain, p + 1)
  {
    assert SignaturesAt(chain, ps + [p]) == SignaturesAt(chain, ps) + [chain[p].signature];
    RowsExtend(log, SignaturesAt(chain, ps), chain[p].signature, rpc);
  }

  /** `log` and the rows of these successes are the events up to position `n`. */
  ghost predicate RowsReach(chain: Chain, log: seq<LogRow>, ps: seq<nat>, n: nat, rpc: Signature -> TxResponse) {
    OnChain(chain, ps) && n <= |chain| && log + RowsOfAll(SignaturesAt(chain, ps), rpc) == EventsUpTo(chain, n)
  }

  lemma {:induction false} OneMoreHonest(
      chain: Chain, log: seq<LogRow>, ps: seq<nat>, p: nat, rpc: Signature -> TxResponse)
    requires p < |chain| && Honest(chain, rpc) && RowsReach(chain, log, ps, p, rpc)
    ensures RowsReach(chain, log, if chain[p].failed then ps else ps + [p], p + 1, rpc)
  {
    if !chain[p].failed {
      OneMoreSuccess(chain, log, ps, p, rpc);
    }
  }

  lemma {:induction false} NoneYet(chain: Chain, log: seq<LogRow>, lo: nat, rpc: Signature -> TxResponse)
    requires lo <= |chain| && log == EventsUpTo(chain, lo)
    ensures RowsReach(chain, log, [], lo, rpc)
  {
    assert SignaturesAt(chain, []) == [];
  }

  /** Indexing the successes from `lo` to `hi` takes the events up to `lo` to those up to `hi`. */
  lemma {:induction false} HonestRows(
      chain: Chain, log: seq<LogRow>, lo: nat, hi: nat, rpc: Signature -> TxResponse)
    requires lo <= hi <= |chain| && Honest(chain, rpc) && log == EventsUpTo(chain, lo)
    ensures RowsReach(chain, log, Successes(chain, lo, hi), hi, rpc)
    decreases hi
  {
    if lo == hi {
      NoneYet(chain, log, lo, rpc);
    } else {
      HonestRows(chain, log, lo, hi - 1, rpc);
      OneMoreHonest(chain, log, Successes(chain, lo, hi - 1), hi - 1, rpc);
    }
  }

  lemma {:induction false} EventsGrow(chain: Chain, tx: Tx, n: nat)
    requires n <= |chain|
    ensures EventsUpTo(chain + [tx], n) == EventsUpTo(chain, n)
  {
    if n > 0 {
      EventsGrow(chain, tx, n - 1);
    }
  }

  /** The log holds the events of the successful transactions up to the cursor, once each, in chain order. */
  predicate Complete(s: State) {
    && s.passed <= |s.chain|
    && s.attempts == Successes(s.chain, 0, s.passed)
    && s.rows == EventsUpTo(s.chain, s.passed)
  }

  /** How many events the successful ones among the first `n` transactions have. */
  function EventCount(chain: Chain, n: nat): nat
    requires n <= |chain|
  {
    if n == 0 then 0 else EventCount(chain, n - 1) + if chain[n - 1].failed then 0 else |chain[n - 1].events|
  }

  /** Row by row: the log has as many rows as the successes passed have events, and each event stands at its place. */
  ghost predicate LoggedInOrder(chain: Chain, n: nat, rows: seq<LogRow>)
    requires n <= |chain|
  {
    && |rows| == EventCount(chain, n)
    && forall p, k :: 0 <= p < n && !chain[p].failed && 0 <= k < |chain[p].events| ==>
         LoggedAt(rows, EventCount(chain, p) + k, chain[p].signature, chain[p].events[k])
  }

  predicate LoggedAt(rows: seq<LogRow>, at: nat, signature: Signature, event: Event) {
    at < |rows| && rows[at].signature == signature && rows[at].event == event
  }

  lemma {:induction false} EventsAreLogged(chain: Chain, n: nat)
    requires n <= |chain|
    ensures LoggedInOrder(chain, n, EventsUpTo(chain, n))
  {
    if n > 0 {
      EventsAreLogged(chain, n - 1);
      if !chain[n - 1].failed {
        LoggedNext(chain, n - 1, EventsUpTo(chain, n - 1));
      }
    }
  }

  lemma {:induction false} LoggedNext(chain: Chain, n: nat, rows: seq<LogRow>)
    requires n < |chain| && !chain[n].failed && LoggedInOrder(chain, n, rows)
    ensures LoggedInOrder(chain, n + 1, rows + RowsFrom(chain[n].signature, chain[n].events))
  {
    var more := rows + RowsFrom(chain[n].signature, chain[n].events);
    forall p, k | 0 <= p < n + 1 && !chain[p].failed && 0 <= k < |chain[p].events|
      ensures LoggedAt(more, EventCount(chain, p) + k, chain[p].signature, chain[p].events[k])
    {
      if p < n {
        assert LoggedAt(rows, EventCount(chain, p) + k, chain[p].signature, chain[p].events[k]);
      }
    }
  }

  /** The successes up to the new cursor are the old ones and the batch, if that left none out. */
  lemma {:induction false} QuietPollReaches(chain: Chain, passed: nat, ps: seq<nat>, reached: nat)
    requires passed <= |chain| && ps == Successes(chain, passed, |chain|) && ps != [] && reached == ps[|ps| - 1] + 1
    ensures passed < reached <= |chain| && Successes(chain, passed, reached) == ps
    ensures Successes(chain, 0, reached) == Successes(chain, 0, passed) + ps
  {
    assert Successes(chain, passed, reached) == ps by { UpToLastSuccess(chain, passed, |chain|); }
    SuccessesSplit(chain, 0, passed, reached);
  }

  lemma {:induction false} QuietPollKeeps(s: State, s': State, rpc: Signature -> TxResponse, ps: seq<nat>)
    requires Complete(s) && |s.chain| - s.passed <= SIG_BATCH && Honest(s.chain, rpc)
    requires ps == Successes(s.chain, s.passed, |s.chain|) && ps != [] && PollsTo(s, s', rpc, ps)
    ensures Complete(s')
  {
    QuietPollReaches(s.chain, s.passed, ps, s'.passed);
    HonestRows(s.chain, s.rows, s.passed, s'.passed, rpc);
  }

  lemma {:induction false} QuietPollCompletes(s: State, rpc: Signature -> TxResponse)
    requires Balanced(s) && Complete(s) && |s.chain| - s.passed <= SIG_BATCH && Honest(s.chain, rpc)
    ensures Complete(Apply(s, Poll(rpc)))
  {
    if Batch(s) != [] { QuietPollKeeps(s, Apply(s, Poll(rpc)), rpc, Batch(s)); }
  }

  lemma {:induction false} StaysComplete(s: State, acts: seq<Action>)
    requires Balanced(s) && Complete(s) && ValidRun(s, acts) && Quiet(s, acts)
    ensures Complete(After(s, acts))
    decreases |acts|
  {
    if acts != [] {
      StepBalances(s, acts[0]);
      if acts[0].Poll? {
        QuietPollCompletes(s, acts[0].rpc);
      } else {
        SuccessesGrow(s.chain, acts[0].tx, 0, s.passed);
        EventsGrow(s.chain, acts[0].tx, s.passed);
      }
      StaysComplete(Apply(s, acts[0]), acts[1..]);
    }
  }

  lemma {:induction false} InitIsComplete()
    ensures Balanced(INIT) && Complete(INIT) && InOrder(INIT)
  {
  }

  /**
   In a quiet run each success the cursor has passed is attempted once, in chain order, and nothing else is; and the
   event log has each of its events once, in order, at the place that the events before it leave.
   */
  lemma {:induction false} ExactlyOnce(acts: seq<Action>)
    requires ValidRun(INIT, acts) && Quiet(INIT, acts)
    ensures var s := After(INIT, acts);
      && s.passed <= |s.chain| && Ascending(s.attempts)
      && (forall p :: p in s.attempts <==> 0 <= p < s.passed && !s.chain[p].failed)
      && LoggedInOrder(s.chain, s.passed, s.rows)
  {
    InitIsComplete();
    StaysComplete(INIT, acts);
    var s := After(INIT, acts);
    SuccessesAscend(s.chain, 0, s.passed);
    forall p ensures p in s.attempts <==> 0 <= p < s.passed && !s.chain[p].failed {
      if p >= 0 { SuccessesContain(s.chain, 0, s.passed, p); }
    }
    EventsAreLogged(s.chain, s.passed);
  }

  /** A completed poll catches up: every transaction newer than its cursor has failed. */
  lemma {:induction false} PollCatchesUp(s: State, rpc: Signature -> TxResponse, p: nat)
    requires s.passed <= |s.chain|
    ensures var s' := Apply(s, Poll(rpc));
      s.passed <= s'.passed && (s'.passed <= p < |s.chain| && |s.chain| - p <= 50 ==> s.chain[p].failed)
  {
    var lo, ps := BatchStart(s.chain, s.passed), Batch(s);
    if s.passed <= p < |s.chain| && |s.chain| - p <= 50 && !s.chain[p].failed {
      SuccessesContain(s.chain, lo, |s.chain|, p);
      SuccessesAscend(s.chain, lo, |s.chain|);
      var i :| 0 <= i < |ps| && ps[i] == p;
      assert ps[i] <= ps[|ps| - 1];
    }
  }

  // ----- At least once, and lost -----

  /** Each completed poll finds at most 50 transactions newer than the cursor. */
  ghost predicate SmallPolls(s: State, acts: seq<Action>)
    requires ValidRun(s, acts)
    decreases |acts|
  {
    acts == [] ||
    var a := acts[0];
    && (a.Poll? && s.passed <= |s.chain| ==> |s.chain| - s.passed <= 50)
    && SmallPolls(Apply(s, a), acts[1..])
  }

  lemma {:induction false} SmallPollsSkipNothing(s: State, acts: seq<Action>)
    requires s.skipped == [] && ValidRun(s, acts) && SmallPolls(s, acts)
    ensures After(s, acts).skipped == []
    decreases |acts|
  {
    if acts != [] {
      SmallPollsSkipNothing(Apply(s, acts[0]), acts[1..]);
    }
  }

  /**
   With small polls, whatever is cut off or fails: each success the cursor has passed has been attempted
   once, plus once for every poll that was cut off after getting to it; nothing else has been attempted
   but by such polls.
   */
  lemma {:induction false} AtLeastOnce(acts: seq<Action>, p: nat)
    requires ValidRun(INIT, acts) && SmallPolls(INIT, acts)
    ensures var s := After(INIT, acts);
      multiset(s.attempts)[p]
      == (if p < s.passed <= |s.chain| && !s.chain[p].failed then 1 else 0) + multiset(s.replays)[p]
  {
    SmallPollsSkipNothing(INIT, acts);
    AttemptsOf(acts, p);
    assert SkippedPositions(After(INIT, acts).skipped) == [];
  }

  /** A success older than the newest 50 transactions is lost for good by a poll that moves the cursor. */
  lemma {:induction false} BurstsAreLost(s: State, rpc: Signature -> TxResponse, acts: seq<Action>, p: nat)
    requires Balanced(s) && Batch(s) != [] && ValidRun(Apply(s, Poll(rpc)), acts)
    requires s.passed <= p && p + 50 < |s.chain| && p !in s.attempts
    ensures p !in After(Apply(s, Poll(rpc)), acts).attempts
  {
    PollBalances(s, rpc);
    PassedIsNeverRevisited(Apply(s, Poll(rpc)), acts, p);
    assert p !in Batch(s);
    assert multiset(After(Apply(s, Poll(rpc)), acts).attempts)[p] == 0;
  }

  // ----- The program takes these steps -----

  lemma {:induction false} CursorAt(chain: Chain, p: nat, n: nat)
    requires UniqueSignatures(chain) && p < n <= |chain|
    ensures Passed(chain, Some(chain[p].signature), n) == p + 1
  {
    if p < n - 1 {
      assert chain[n - 1].signature != chain[p].signature;
      CursorAt(chain, p, n - 1);
    }
  }

  /** The cursor in the database stands for the model's count. */
  predicate Represents(s: State, cursor: Option<Signature>) {
    if cursor.None? then s.passed == 0
    else 0 < s.passed <= |s.chain| && s.chain[s.passed - 1].signature == cursor.value
  }

  /** The step a poll in this world takes, if it gets as far as taking one. */
  ghost function StepOf(s: State, world: World): Option<Action>
    requires s.passed <= |s.chain|
  {
    if !world.cursorReadOk || !world.listOk then None
    else if Batch(s) == [] || Completes(world, Batch(s)) then Some(Poll(world.rpc))
    else Some(CutOff(world.rpc, Least(world.life, |Batch(s)|)))
  }

  ghost function Polled(s: State, world: World): State
    requires s.passed <= |s.chain|
  {
    StepIsEnabled(s, world);
    match StepOf(s, world)
    case None => s
    case Some(a) => Apply(s, a)
  }

  function CursorAfter(chain: Chain, ps: seq<nat>, world: World, before: Option<Signature>): Option<Signature>
    requires OnChain(chain, ps)
  {
    if ps != [] && Completes(world, ps) then Some(chain[ps[|ps| - 1]].signature) else before
  }

  lemma {:induction false} PollOutcome(s: State, world: World, ps: seq<nat>)
    requires s.passed <= |s.chain| && ps == Batch(s)
    ensures Polled(s, world).chain == s.chain
    ensures Polled(s, world).passed
         == if ps != [] && Completes(world, ps) then ps[|ps| - 1] + 1 else s.passed
    ensures Polled(s, world).rows
         == s.rows + RowsOfAll(SignaturesAt(s.chain, ps[..DoneBy(world, ps)]), world.rpc)
    ensures Polled(s, world).attempts == s.attempts + ps[..DoneBy(world, ps)]
    ensures Polled(s, world).replays
         == s.replays + if ps != [] && Completes(world, ps) then [] else ps[..DoneBy(world, ps)]
  {
    if ps == [] {
      assert ps[..DoneBy(world, ps)] == [];
    } else if Completes(world, ps) {
      assert ps[..DoneBy(world, ps)] == ps;
    } else if world.cursorReadOk && world.listOk {
      assert DoneBy(world, ps) == Least(world.life, |ps|);
    }
  }

  lemma {:induction false} CursorKeepsUp(s: State, world: World, ps: seq<nat>, before: Option<Signature>)
    requires s.passed <= |s.chain| && ps == Batch(s) && Represents(s, before)
    ensures Represents(Polled(s, world), CursorAfter(s.chain, ps, world, before))
    ensures Polled(s, world).rows
         == s.rows + RowsOfAll(SignaturesAt(s.chain, ps[..DoneBy(world, ps)]), world.rpc)
  {
    PollOutcome(s, world, ps);
    CursorStands(s, Polled(s, world), world, ps, before);
  }

  lemma {:induction false} CursorStands(s: State, s': State, world: World, ps: seq<nat>, before: Option<Signature>)
    requires OnChain(s.chain, ps) && s'.chain == s.chain && Represents(s, before)
    requires s'.passed == if ps != [] && Completes(world, ps) then ps[|ps| - 1] + 1 else s.passed
    ensures Represents(s', CursorAfter(s.chain, ps, world, before))
  {
  }

  lemma {:induction false} StepIsEnabled(s: State, world: World)
    requires s.passed <= |s.chain|
    ensures StepOf(s, world).Some? ==> Enabled(s, StepOf(s, world).value)
  {
  }

  lemma {:induction false} BatchAtCursor(s: State, cursor: Option<Signature>)
    requires UniqueSignatures(s.chain) && s.passed <= |s.chain| && Represents(s, cursor)
    ensures BatchOf(s.chain, cursor) == Batch(s)
  {
    if cursor.Some? {
      CursorAt(s.chain, s.passed - 1, |s.chain|);
    }
  }

  /**
   The attempts a poll adds are those whose rows it writes, and they are replays unless it gets past them.
   */
  lemma {:induction false} AttemptsAreWritten(s: State, world: World, attempted: seq<nat>)
    requires s.passed <= |s.chain| && s.attempts + attempted == Polled(s, world).attempts
    ensures OnChain(s.chain, attempted)
    ensures Polled(s, world).rows == s.rows + RowsOfAll(SignaturesAt(s.chain, attempted), world.rpc)
    ensures Polled(s, world).replays
         == s.replays + if Polled(s, world).passed > s.passed then [] else attempted
  {
    var ps := Batch(s);
    PollOutcome(s, world, ps);
    assert attempted == ps[..DoneBy(world, ps)] by {
      assert (s.attempts + attempted)[|s.attempts|..] == attempted;
      assert (s.attempts + ps[..DoneBy(world, ps)])[|s.attempts|..] == ps[..DoneBy(world, ps)];
    }
  }

  /** What a poll leaves in the database, with the batch named. */
  method PollBatch(db: Store, program: Program, chain: Chain, world: World, ghost ps: seq<nat>)
    requires ps == BatchOf(chain, db.Cursor(program))
    modifies db
    ensures db.Cursor(program) == CursorAfter(chain, ps, world, old(db.Cursor(program)))
    ensures db.eventLog == old(db.eventLog) + RowsOfAll(SignaturesAt(chain, ps[..DoneBy(world, ps)]), world.rpc)
    ensures forall other :: other != program ==> db.Cursor(other) == old(db.Cursor(other))
  {
    var _ := PollProgram(db, program, chain, world);
  }

  /**
   Whatever happens during a poll, PollProgram takes a step of the run model, or none: a completed poll is the step
   Poll, one that dies or cannot write the cursor the step CutOff. It writes the step's rows, and its cursor stands
   for the new count.
   */
  method PollStep(db: Store, program: Program, s: State, world: World) returns (ghost written: seq<LogRow>)
    requires UniqueSignatures(s.chain) && s.passed <= |s.chain| && Represents(s, db.Cursor(program))
    modifies db
    ensures Represents(Polled(s, world), db.Cursor(program))
    ensures db.eventLog == old(db.eventLog) + written && Polled(s, world).rows == s.rows + written
    ensures forall other :: other != program ==> db.Cursor(other) == old(db.Cursor(other))
  {
    ghost var ps, before := Batch(s), db.Cursor(program);
    BatchAtCursor(s, before);
    written := RowsOfAll(SignaturesAt(s.chain, ps[..DoneBy(world, ps)]), world.rpc);
    PollBatch(db, program, s.chain, world, ps);
    CursorKeepsUp(s, world, ps, before);
  }
}
