/**
 The token-bucket rate limiter (backend/src/rate_limit.rs), with real numbers for the f64 fields and
 for clock readings in seconds.
 */
module RateLimiter {
  import opened Reals
  import opened Wrappers
  import opened TokenAccount
  import C = CreditClock

  const U64_MAX: int := 0xFFFF_FFFF_FFFF_FFFF

  datatype Config = Config(capacity: nat, rps: real)

  type Bucket = C.Bucket

  type Buckets = C.Buckets

  type Request = C.Request

  function Ceil(x: real): int {
    -((-x).Floor)
  }

  /** The bucket of the key, or a full one for a key not seen before. */
  function BucketFor(c: Config, buckets: Buckets, r: Request): Bucket {
    if r.key in buckets then buckets[r.key] else C.Bucket(c.capacity as real, r.time)
  }

  function TokensAt(c: Config, b: Bucket, now: real): real {
    Min(b.tokens + C.Elapsed(b.lastRefill, now) * c.rps, c.capacity as real)
  }

  /** Whole seconds until there is a token again; the cast to u64 saturates. */
  function RetryAfter(c: Config, tokens: real): (w: nat)
    requires tokens < 1.0
  {
    if c.rps > 0.0 then
      var wait := Ceil((1.0 - tokens) / c.rps);
      assert (1.0 - tokens) / c.rps > 0.0;
      if wait <= U64_MAX then wait else U64_MAX
    else U64_MAX
  }

  function Tokens(c: Config, buckets: Buckets, r: Request): real {
    TokensAt(c, BucketFor(c, buckets, r), r.time)
  }

  function Answer(c: Config, buckets: Buckets, r: Request): Result<(), nat> {
    var tokens := Tokens(c, buckets, r);
    if tokens >= 1.0 then Ok(()) else Err(RetryAfter(c, tokens))
  }

  function Served(c: Config, buckets: Buckets, r: Request): Buckets {
    var tokens := Tokens(c, buckets, r);
    buckets[r.key := C.Bucket(if tokens >= 1.0 then tokens - 1.0 else tokens, r.time)]
  }

  class RateLimiter {
    var buckets: Buckets
    const config: Config

    constructor (capacity: nat, refillPerSecond: real)
      ensures buckets == map[] && config == Config(capacity, refillPerSecond)
    {
      buckets := map[];
      config := Config(capacity, refillPerSecond);
    }

    /** `now` is the clock reading, taken before the lock on the buckets. */
    method Check(key: Key, now: real) returns (r: Result<(), nat>)
      modifies this`buckets
      ensures r == Answer(config, old(buckets), C.Request(key, now))
      ensures r.Ok? <==> Tokens(config, old(buckets), C.Request(key, now)) >= 1.0
      ensures buckets == Served(config, old(buckets), C.Request(key, now))
    {
      var bucket := if key in buckets then buckets[key] else C.Bucket(config.capacity as real, now);
      var elapsed := C.Elapsed(bucket.lastRefill, now);
      var tokens := Min(bucket.tokens + elapsed * config.rps, config.capacity as real);
      assert tokens == Tokens(config, buckets, C.Request(key, now));
      buckets := buckets[key := C.Bucket(tokens, now)];
      if tokens >= 1.0 {
        buckets := buckets[key := C.Bucket(tokens - 1.0, now)];
        r := Ok(());
      } else {
        r := Err(RetryAfter(config, tokens));
      }
    }
  }

  // ----- Whole histories -----

  /** The buckets after the first `n` requests. */
  function After(c: Config, reqs: seq<Request>, n: nat): Buckets
    requires n <= |reqs|
  {
    if n == 0 then map[] else Served(c, After(c, reqs, n - 1), reqs[n - 1])
  }

  /** Check answers Ok: it finds a token. */
  predicate Admitted(c: Config, reqs: seq<Request>, j: nat)
    requires j < |reqs|
  {
    Tokens(c, After(c, reqs, j), reqs[j]) >= 1.0
  }

  /** The decisions on all requests. */
  function Decisions(c: Config, reqs: seq<Request>): (ds: seq<bool>)
    ensures |ds| == |reqs|
  {
    seq(|reqs|, j requires 0 <= j < |reqs| => Admitted(c, reqs, j))
  }

  /** The requests `i` to `j - 1` of the key that are admitted. */
  function AdmittedCount(c: Config, reqs: seq<Request>, key: Key, i: nat, j: nat): nat
    requires i <= j <= |reqs|
    decreases j - i
  {
    if i == j then 0
    else AdmittedCount(c, reqs, key, i, j - 1) + if reqs[j - 1].key == key && Admitted(c, reqs, j - 1) then 1 else 0
  }

  // ----- The limiter is a bucket on a credit clock -----

  function Tick(rps: real, r: Request): Request {
    C.Request(r.key, r.time * rps)
  }

  /** The requests with their times in tokens. */
  function Ticks(rps: real, reqs: seq<Request>): (ts: seq<Request>)
    ensures |ts| == |reqs|
  {
    seq(|reqs|, i requires 0 <= i < |reqs| => Tick(rps, reqs[i]))
  }

  lemma {:induction false} Scale(r: real, x: real, y: real)
    requires r >= 0.0 && x <= y
    ensures x * r <= y * r
  {
  }

  lemma {:induction false} ScaleStrictly(r: real, x: real, y: real)
    requires r > 0.0 && x < y
    ensures x * r < y * r
  {
  }

  lemma {:induction false} ElapsedScales(rps: real, last: real, now: real)
    requires rps >= 0.0
    ensures C.Elapsed(last, now) * rps == C.Elapsed(last * rps, now * rps)
  {
    if now > last { Scale(rps, last, now); } else { Scale(rps, now, last); }
  }

  predicate SameBucket(rps: real, b: Bucket, tb: Bucket) {
    tb.tokens == b.tokens && tb.lastRefill == b.lastRefill * rps
  }

  /** The buckets of the key agree, up to the unit of time. */
  predicate SameFor(rps: real, buckets: Buckets, ticked: Buckets, key: Key) {
    && (key in buckets <==> key in ticked)
    && (key in buckets ==> SameBucket(rps, buckets[key], ticked[key]))
  }

  lemma {:induction false} SameTokens(c: Config, buckets: Buckets, ticked: Buckets, r: Request)
    requires c.rps >= 0.0 && SameFor(c.rps, buckets, ticked, r.key)
    ensures C.Tokens(c.capacity as real, ticked, Tick(c.rps, r)) == Tokens(c, buckets, r)
  {
    ElapsedScales(c.rps, BucketFor(c, buckets, r).lastRefill, r.time);
  }

  lemma {:induction false} SameServed(c: Config, buckets: Buckets, ticked: Buckets, r: Request, key: Key)
    requires c.rps >= 0.0 && SameFor(c.rps, buckets, ticked, key)
    ensures SameFor(c.rps, Served(c, buckets, r), C.Served(c.capacity as real, ticked, Tick(c.rps, r)), key)
  {
    if r.key == key { SameTokens(c, buckets, ticked, r); }
  }

  lemma {:induction false} SameAfter(c: Config, reqs: seq<Request>, n: nat, key: Key)
    requires n <= |reqs| && c.rps >= 0.0
    ensures SameFor(c.rps, After(c, reqs, n), C.After(c.capacity as real, Ticks(c.rps, reqs), n), key)
  {
    if n > 0 {
      SameAfter(c, reqs, n - 1, key);
      SameServed(c, After(c, reqs, n - 1), C.After(c.capacity as real, Ticks(c.rps, reqs), n - 1), reqs[n - 1], key);
    }
  }

  /** Every request finds the tokens of the credit clock's bucket, so it is decided alike. */
  predicate AgreesAt(c: Config, reqs: seq<Request>, ticks: seq<Request>, n: nat)
    requires n < |reqs| == |ticks|
  {
    && Tokens(c, After(c, reqs, n), reqs[n])
       == C.Tokens(c.capacity as real, C.After(c.capacity as real, ticks, n), ticks[n])
    && Admitted(c, reqs, n) == C.Admitted(c.capacity as real, ticks, n)
  }

  lemma {:induction false} ClockAgrees(c: Config, reqs: seq<Request>, n: nat)
    requires n < |reqs| && c.rps >= 0.0
    ensures AgreesAt(c, reqs, Ticks(c.rps, reqs), n)
  {
    SameAfter(c, reqs, n, reqs[n].key);
    SameTokens(c, After(c, reqs, n), C.After(c.capacity as real, Ticks(c.rps, reqs), n), reqs[n]);
  }

  lemma {:induction false} DecisionsAgree(c: Config, reqs: seq<Request>)
    requires c.rps >= 0.0
    ensures Decisions(c, reqs) == C.Decisions(c.capacity as real, Ticks(c.rps, reqs), |reqs|)
  {
    var cap, ticks := c.capacity as real, Ticks(c.rps, reqs);
    forall n | 0 <= n < |reqs| ensures Decisions(c, reqs)[n] == C.Decisions(cap, ticks, |reqs|)[n] {
      ClockAgrees(c, reqs, n);
      C.DecisionAt(cap, ticks, |reqs|, n);
    }
  }

  /** What the requests refill: the offerings of the credit clock. */
  function Refills(c: Config, reqs: seq<Request>): (os: seq<Offering>)
    ensures |os| == |reqs|
  {
    C.Offerings(Ticks(c.rps, reqs), |reqs|)
  }

  predicate SameTime(rps: real, time: Option<real>, tick: Option<real>) {
    tick.Some? == time.Some? && (time.Some? ==> tick.value == time.value * rps)
  }

  lemma {:induction false} LastSeenTicks(rps: real, reqs: seq<Request>, key: Key, n: nat)
    requires n <= |reqs|
    ensures SameTime(rps, C.LastSeen(reqs, key, n), C.LastSeen(Ticks(rps, reqs), key, n))
  {
    if n > 0 {
      LastSeenTicks(rps, reqs, key, n - 1);
      assert Ticks(rps, reqs)[n - 1] == Tick(rps, reqs[n - 1]);
    }
  }

  /** Each request refills its key's bucket by the rate times the seconds since the key's last request. */
  lemma {:induction false} RefillIsRated(c: Config, reqs: seq<Request>, n: nat)
    requires n < |reqs| && c.rps >= 0.0
    ensures Refills(c, reqs)[n] == Offering(reqs[n].key, C.Waited(reqs, n) * c.rps)
  {
    var ticks, last := Ticks(c.rps, reqs), C.LastSeen(reqs, reqs[n].key, n);
    C.OfferingAt(ticks, |reqs|, n);
    LastSeenTicks(c.rps, reqs, reqs[n].key, n);
    if last.Some? { ElapsedScales(c.rps, last.value, reqs[n].time); }
  }

  /** The admissions of a policy that are requests of the key are the same on either clock. */
  lemma {:induction false} CountAgrees(c: Config, reqs: seq<Request>, os: seq<Offering>, key: Key, i: nat, j: nat)
    requires i <= j <= |reqs| == |os| && forall n :: 0 <= n < |reqs| ==> os[n].key == reqs[n].key
    ensures Count(os, Decisions(c, reqs), key, i, j) == AdmittedCount(c, reqs, key, i, j)
    decreases j
  {
    if i < j { CountAgrees(c, reqs, os, key, i, j - 1); }
  }

  lemma {:induction false} OfferingKeys(ticks: seq<Request>, reqs: seq<Request>)
    requires |ticks| == |reqs| && forall n :: 0 <= n < |reqs| ==> ticks[n].key == reqs[n].key
    ensures forall n :: 0 <= n < |reqs| ==> C.Offerings(ticks, |ticks|)[n].key == reqs[n].key
  {
    forall n | 0 <= n < |reqs| ensures C.Offerings(ticks, |ticks|)[n].key == reqs[n].key {
      C.OfferingAt(ticks, |ticks|, n);
    }
  }

  lemma {:induction false} TicksKeyInOrder(rps: real, reqs: seq<Request>, key: Key, i: nat, j: nat)
    requires rps >= 0.0 && j <= |reqs| && C.KeyInOrder(reqs, key, i, j)
    ensures C.KeyInOrder(Ticks(rps, reqs), key, i, j)
  {
    forall a, b | i <= a <= b < j && reqs[a].key == key && reqs[b].key == key
      ensures Ticks(rps, reqs)[a].time <= Ticks(rps, reqs)[b].time
    {
      Scale(rps, reqs[a].time, reqs[b].time);
    }
  }

  // ----- Main results -----

  /**
   For any requests, and any other policy that admits only when its own bucket, of the same capacity and
   refill, holds a token: after every prefix the limiter has admitted at least as many.
   */
  lemma {:induction false} LimiterIsOptimal(c: Config, reqs: seq<Request>, p: seq<bool>, key: Key, n: nat)
    requires n <= |reqs| == |p| && c.rps >= 0.0 && Feasible(c.capacity as real, Refills(c, reqs), p)
    ensures Count(Refills(c, reqs), p, key, 0, n) <= AdmittedCount(c, reqs, key, 0, n)
  {
    DecisionsAgree(c, reqs);
    OfferingKeys(Ticks(c.rps, reqs), reqs);
    CountAgrees(c, reqs, Refills(c, reqs), key, 0, n);
    C.LimiterIsOptimal(c.capacity as real, Ticks(c.rps, reqs), p, key, n);
  }

  /** The requests on a credit clock, with the same decisions. */
  ghost predicate Mirrors(c: Config, reqs: seq<Request>, ticks: seq<Request>) {
    && |ticks| == |reqs|
    && (forall n :: 0 <= n < |reqs| ==> ticks[n].key == reqs[n].key)
    && Decisions(c, reqs) == C.Decisions(c.capacity as real, ticks, |ticks|)
  }

  lemma {:induction false} TicksMirror(c: Config, reqs: seq<Request>)
    requires c.rps >= 0.0
    ensures Mirrors(c, reqs, Ticks(c.rps, reqs))
  {
    DecisionsAgree(c, reqs);
  }

  lemma {:induction false} TickDifference(rps: real, reqs: seq<Request>, i: nat, j: nat, d: real)
    requires i < |reqs| && j < |reqs| && d == reqs[j].time - reqs[i].time
    ensures Ticks(rps, reqs)[j].time - Ticks(rps, reqs)[i].time == d * rps
  {
  }

  /** The tokens that the first `n` requests refill again because they put the key's clock back. */
  function SlippedTokens(c: Config, reqs: seq<Request>, key: Key, n: nat): real
    requires n <= |reqs|
  {
    C.Slipped(Ticks(c.rps, reqs), key, n)
  }

  lemma {:induction false} SlipScales(rps: real, reqs: seq<Request>, n: nat)
    requires n < |reqs| && rps >= 0.0
    ensures C.SlipAt(Ticks(rps, reqs), n) == C.SlipAt(reqs, n) * rps
  {
    var last := C.LastSeen(reqs, reqs[n].key, n);
    LastSeenTicks(rps, reqs, reqs[n].key, n);
    if last.Some? { ElapsedScales(rps, reqs[n].time, last.value); }
  }

  /** A request that puts its key's clock back by d seconds adds d times the rate to them. */
  lemma {:induction false} SlipIsRated(c: Config, reqs: seq<Request>, n: nat)
    requires n < |reqs| && c.rps >= 0.0
    ensures SlippedTokens(c, reqs, reqs[n].key, n + 1) - SlippedTokens(c, reqs, reqs[n].key, n)
         == C.SlipAt(reqs, n) * c.rps
  {
    SlipScales(c.rps, reqs, n);
  }

  /** From one request of a key to a later one there are no slips if the key's requests are in order. */
  lemma {:induction false} NoSlippedTokens(c: Config, reqs: seq<Request>, i: nat, n: nat)
    requires i < n <= |reqs| && c.rps >= 0.0 && C.KeyInOrder(reqs, reqs[i].key, i, n)
    ensures SlippedTokens(c, reqs, reqs[i].key, i + 1) == SlippedTokens(c, reqs, reqs[i].key, n)
  {
    TicksKeyInOrder(c.rps, reqs, reqs[i].key, i, n);
    C.NoSlips(Ticks(c.rps, reqs), i, n);
  }

  lemma {:induction false} SlippedTokensRise(c: Config, reqs: seq<Request>, key: Key, i: nat, j: nat)
    requires i <= j <= |reqs|
    ensures SlippedTokens(c, reqs, key, i) <= SlippedTokens(c, reqs, key, j)
  {
    C.SlippedRises(Ticks(c.rps, reqs), key, i, j);
  }

  /** The requests on a credit clock: the time between two of them is scaled by the rate. */
  lemma {:induction false} MirrorOf(c: Config, reqs: seq<Request>, i: nat, j: nat, d: real)
    returns (ticks: seq<Request>)
    requires i <= j < |reqs| && c.rps >= 0.0 && d == reqs[j].time - reqs[i].time
    ensures Mirrors(c, reqs, ticks)
    ensures ticks[j].time - ticks[i].time == d * c.rps
    ensures forall key, n :: 0 <= n <= |reqs| ==> C.Slipped(ticks, key, n) == SlippedTokens(c, reqs, key, n)
    ensures forall n :: 0 <= n < |reqs| ==> AgreesAt(c, reqs, ticks, n)
  {
    ticks := Ticks(c.rps, reqs);
    TicksMirror(c, reqs);
    TickDifference(c.rps, reqs, i, j, d);
    forall n | 0 <= n < |reqs| ensures AgreesAt(c, reqs, ticks, n) { ClockAgrees(c, reqs, n); }
  }

  lemma {:induction false} MirroredCount(c: Config, reqs: seq<Request>, ticks: seq<Request>, key: Key, i: nat, j: nat)
    requires Mirrors(c, reqs, ticks) && i <= j <= |reqs|
    ensures AdmittedCount(c, reqs, key, i, j) == C.AdmittedCount(c.capacity as real, ticks, key, i, j)
  {
    OfferingKeys(ticks, reqs);
    CountAgrees(c, reqs, C.Offerings(ticks, |ticks|), key, i, j);
  }

  lemma {:induction false} MirroredWindow(c: Config, reqs: seq<Request>, ticks: seq<Request>, i: nat, j: nat)
    requires Mirrors(c, reqs, ticks) && i <= j < |reqs| && reqs[i].key == reqs[j].key
    ensures var key := reqs[i].key;
      AdmittedCount(c, reqs, key, i, j + 1) as real
      <= c.capacity as real
         + (ticks[j].time - ticks[i].time + (C.Slipped(ticks, key, j + 1) - C.Slipped(ticks, key, i + 1)))
  {
    MirroredCount(c, reqs, ticks, reqs[i].key, i, j + 1);
    C.WindowBound(c.capacity as real, ticks, i, j);
  }

  /**
   A window of length T admits at most capacity + rps * T requests of a key, and the tokens refilled again because
   requests in it have put the key's clock back.
   */
  lemma {:induction false} WindowBound(c: Config, reqs: seq<Request>, i: nat, j: nat, window: real)
    requires i <= j < |reqs| && reqs[i].key == reqs[j].key && c.rps >= 0.0
    requires window == reqs[j].time - reqs[i].time
    ensures var key := reqs[i].key;
      AdmittedCount(c, reqs, key, i, j + 1) as real
      <= c.capacity as real + window * c.rps
         + (SlippedTokens(c, reqs, key, j + 1) - SlippedTokens(c, reqs, key, i + 1))
  {
    var ticks := MirrorOf(c, reqs, i, j, window);
    MirroredWindow(c, reqs, ticks, i, j);
  }

  /** If the key's requests in it are in order, a window of length T admits at most capacity + rps * T of them. */
  lemma {:induction false} WindowInOrder(c: Config, reqs: seq<Request>, i: nat, j: nat, window: real)
    requires i <= j < |reqs| && reqs[i].key == reqs[j].key && c.rps >= 0.0
    requires C.KeyInOrder(reqs, reqs[i].key, i, j + 1)
    requires window == reqs[j].time - reqs[i].time
    ensures AdmittedCount(c, reqs, reqs[i].key, i, j + 1) as real <= c.capacity as real + window * c.rps
  {
    NoSlippedTokens(c, reqs, i, j + 1);
    WindowBound(c, reqs, i, j, window);
  }

  /**
   Order matters: the clock is read before the lock is taken, so a request that reads the clock first and
   gets the lock second turns the bucket's time back, and the same second is refilled twice.
   */
  lemma {:induction false} OutOfOrderExceedsWindow()
    ensures var c, reqs := Config(1, 1.0), [C.Request("k", 1.0), C.Request("k", 0.0), C.Request("k", 1.0)];
      AdmittedCount(c, reqs, "k", 0, 3) as real > c.capacity as real + (reqs[2].time - reqs[0].time) * c.rps
  {
    var c, reqs := Config(1, 1.0), [C.Request("k", 1.0), C.Request("k", 0.0), C.Request("k", 1.0)];
    assert After(c, reqs, 1) == map["k" := C.Bucket(0.0, 1.0)];
    assert After(c, reqs, 2) == map["k" := C.Bucket(0.0, 0.0)];
    assert Admitted(c, reqs, 0) && !Admitted(c, reqs, 1) && Admitted(c, reqs, 2);
    assert AdmittedCount(c, reqs, "k", 0, 1) == 1;
    assert AdmittedCount(c, reqs, "k", 0, 2) == 1;
  }

  // ----- The closed form -----

  /** The rate times the seconds between two requests. */
  function RatedTime(c: Config, reqs: seq<Request>, i: nat, n: nat): real
    requires i < |reqs| && n < |reqs|
  {
    (reqs[n].time - reqs[i].time) * c.rps
  }

  /**
   What the bucket would hold at request `n` had it been full when it admitted request `i`: the capacity, the rate times
   the seconds since, and the slips since, less the admissions since.
   */
  function SinceAdmission(c: Config, reqs: seq<Request>, i: nat, n: nat): real
    requires i < n < |reqs|
  {
    var key := reqs[i].key;
    c.capacity as real + RatedTime(c, reqs, i, n)
    + (SlippedTokens(c, reqs, key, n + 1) - SlippedTokens(c, reqs, key, i + 1))
    - AdmittedCount(c, reqs, key, i, n) as real
  }

  predicate EarlierAdmitted(c: Config, reqs: seq<Request>, i: nat, n: nat)
    requires i < n < |reqs|
  {
    reqs[i].key == reqs[n].key && Admitted(c, reqs, i)
  }

  /** `tokens` is the least of the capacity and what is left since each earlier admission. */
  ghost predicate LeastSinceAdmission(c: Config, reqs: seq<Request>, n: nat, tokens: real)
    requires n < |reqs|
  {
    && tokens <= c.capacity as real
    && (forall i :: 0 <= i < n && EarlierAdmitted(c, reqs, i, n) ==> tokens <= SinceAdmission(c, reqs, i, n))
    && (|| tokens == c.capacity as real
        || exists i :: 0 <= i < n && EarlierAdmitted(c, reqs, i, n) && tokens == SinceAdmission(c, reqs, i, n))
  }

  /** The requests on a credit clock, with the time since each of those before request `n`. */
  lemma {:induction false} MirrorTo(c: Config, reqs: seq<Request>, n: nat) returns (ticks: seq<Request>)
    requires n < |reqs| && c.rps >= 0.0
    ensures Mirrors(c, reqs, ticks)
    ensures forall i :: 0 <= i < n ==> ticks[n].time - ticks[i].time == RatedTime(c, reqs, i, n)
    ensures forall key, k :: 0 <= k <= |reqs| ==> C.Slipped(ticks, key, k) == SlippedTokens(c, reqs, key, k)
    ensures forall i :: 0 <= i < |reqs| ==> AgreesAt(c, reqs, ticks, i)
  {
    ticks := Ticks(c.rps, reqs);
    TicksMirror(c, reqs);
    forall i | 0 <= i < n ensures ticks[n].time - ticks[i].time == RatedTime(c, reqs, i, n) {
      TickDifference(c.rps, reqs, i, n, reqs[n].time - reqs[i].time);
    }
    forall i | 0 <= i < |reqs| ensures AgreesAt(c, reqs, ticks, i) { ClockAgrees(c, reqs, i); }
  }

  lemma {:induction false} SinceAgrees(c: Config, reqs: seq<Request>, ticks: seq<Request>, i: nat, n: nat)
    requires i < n < |reqs| && Mirrors(c, reqs, ticks)
    requires ticks[n].time - ticks[i].time == RatedTime(c, reqs, i, n)
    requires forall key, k :: 0 <= k <= |reqs| ==> C.Slipped(ticks, key, k) == SlippedTokens(c, reqs, key, k)
    requires AgreesAt(c, reqs, ticks, i)
    ensures C.SinceAdmission(c.capacity as real, ticks, i, n) == SinceAdmission(c, reqs, i, n)
    ensures C.EarlierAdmitted(c.capacity as real, ticks, i, n) <==> EarlierAdmitted(c, reqs, i, n)
  {
    MirroredCount(c, reqs, ticks, reqs[i].key, i, n);
  }

  /** The min-plus closed form of the tokens that a request finds. */
  lemma {:induction false} LazyRefillClosedForm(c: Config, reqs: seq<Request>, n: nat)
    requires n < |reqs| && c.rps >= 0.0
    ensures LeastSinceAdmission(c, reqs, n, Tokens(c, After(c, reqs, n), reqs[n]))
  {
    var ticks := MirrorTo(c, reqs, n);
    var cap, tokens := c.capacity as real, Tokens(c, After(c, reqs, n), reqs[n]);
    assert C.LeastSinceAdmission(cap, ticks, n, tokens) by {
      assert AgreesAt(c, reqs, ticks, n);
      C.LazyRefillClosedForm(cap, ticks, n);
    }
    forall i | 0 <= i < n && EarlierAdmitted(c, reqs, i, n) ensures tokens <= SinceAdmission(c, reqs, i, n) {
      SinceAgrees(c, reqs, ticks, i, n);
    }
    if tokens != cap {
      var i :| 0 <= i < n && C.EarlierAdmitted(cap, ticks, i, n) && tokens == C.SinceAdmission(cap, ticks, i, n);
      SinceAgrees(c, reqs, ticks, i, n);
    }
  }

  // ----- Retry-After -----

  /** A refill of `need` tokens takes need / rps seconds. */
  lemma {:induction false} RefillTime(rps: real, need: real, d: real)
    requires rps > 0.0
    ensures d * rps >= need <==> d >= need / rps
  {
    var x := need / rps;
    assert x * rps == need;
    if d >= x { Scale(rps, x, d); } else { ScaleStrictly(rps, d, x); }
  }

  lemma {:induction false} WaitIsExact(c: Config, tokens: real, d: real)
    requires tokens < 1.0 && c.rps > 0.0
    ensures var w, x := RetryAfter(c, tokens), (1.0 - tokens) / c.rps;
      && (d >= w as real && x <= U64_MAX as real ==> d >= x)
      && (d == w as real && x > U64_MAX as real ==> d < x)
      && (d <= (w - 1) as real ==> d < x)
  {
  }

  /** The wait fits in a u64; if it does not, the header is cut to 2^64 - 1 seconds. */
  predicate WaitFits(c: Config, tokens: real) {
    1.0 - tokens <= (U64_MAX as real) * c.rps
  }

  /**
   The promise of a wait of `w` seconds for a bucket with `tokens`: `d` seconds later a check succeeds if
   d >= w, and is refused if d <= w - 1. The one exception is a wait that does not fit: after the cut one
   the check is still refused.
   */
  predicate ExactWait(c: Config, tokens: real, w: nat, d: real, admitted: bool) {
    && (d >= w as real && WaitFits(c, tokens) ==> admitted)
    && (d == w as real && !WaitFits(c, tokens) ==> !admitted)
    && (d <= (w - 1) as real ==> !admitted)
  }

  lemma {:induction false} RefillMeetsWait(c: Config, tokens: real, d: real, gain: real)
    requires tokens < 1.0 && c.rps > 0.0 && c.capacity >= 1 && gain == d * c.rps
    ensures ExactWait(c, tokens, RetryAfter(c, tokens), d, Min(tokens + gain, c.capacity as real) >= 1.0)
  {
    RefillTime(c.rps, 1.0 - tokens, d);
    RefillTime(c.rps, 1.0 - tokens, U64_MAX as real);
    WaitIsExact(c, tokens, d);
    assert Min(tokens + gain, c.capacity as real) >= 1.0 <==> gain >= 1.0 - tokens;
  }

  lemma {:induction false} MirroredIdle(
      c: Config, reqs: seq<Request>, ticks: seq<Request>, i: nat, j: nat, gain: real, slipped: real)
    returns (start: real, admitted: bool)
    requires Mirrors(c, reqs, ticks) && i < j < |reqs| && reqs[i].key == reqs[j].key
    requires AdmittedCount(c, reqs, reqs[i].key, i, j) == 0 && gain == ticks[j].time - ticks[i].time
    requires slipped == C.Slipped(ticks, reqs[i].key, j + 1) - C.Slipped(ticks, reqs[i].key, i + 1)
    ensures start == C.Tokens(c.capacity as real, C.After(c.capacity as real, ticks, i), ticks[i])
    ensures admitted == C.Admitted(c.capacity as real, ticks, j)
    ensures admitted <==> Min(start + gain + slipped, c.capacity as real) >= 1.0
  {
    MirroredCount(c, reqs, ticks, reqs[i].key, i, j);
    start := C.Tokens(c.capacity as real, C.After(c.capacity as real, ticks, i), ticks[i]);
    admitted := C.Admitted(c.capacity as real, ticks, j);
    C.IdleDecision(c.capacity as real, ticks, i, j);
  }

  /** With nothing admitted in between, the bucket has just been refilling since request `i`. */
  lemma {:induction false} IdleTokens(
      c: Config, reqs: seq<Request>, i: nat, j: nat, tokens: real, d: real, slipped: real) returns (gain: real)
    requires i < j < |reqs| && reqs[i].key == reqs[j].key && c.rps >= 0.0
    requires tokens == Tokens(c, After(c, reqs, i), reqs[i]) && AdmittedCount(c, reqs, reqs[i].key, i, j) == 0
    requires d == reqs[j].time - reqs[i].time
    requires slipped == SlippedTokens(c, reqs, reqs[i].key, j + 1) - SlippedTokens(c, reqs, reqs[i].key, i + 1)
    ensures gain == d * c.rps
    ensures Admitted(c, reqs, j) <==> Min(tokens + gain + slipped, c.capacity as real) >= 1.0
  {
    var ticks := MirrorOf(c, reqs, i, j, d);
    gain := ticks[j].time - ticks[i].time;
    var start, admitted := MirroredIdle(c, reqs, ticks, i, j, gain, slipped);
    assert tokens == start by { assert AgreesAt(c, reqs, ticks, i); }
    assert Admitted(c, reqs, j) == admitted by { assert AgreesAt(c, reqs, ticks, j); }
  }

  /**
   In any history, with nothing admitted on the key since request `i` found `tokens`, a check `d` seconds later is
   admitted exactly if they, the refill over d and the slips in between make a whole token.
   */
  lemma {:induction false} IdleDecision(
      c: Config, reqs: seq<Request>, i: nat, j: nat, tokens: real, d: real, slipped: real)
    requires i < j < |reqs| && reqs[i].key == reqs[j].key && c.rps >= 0.0
    requires tokens == Tokens(c, After(c, reqs, i), reqs[i]) && AdmittedCount(c, reqs, reqs[i].key, i, j) == 0
    requires d == reqs[j].time - reqs[i].time
    requires slipped == SlippedTokens(c, reqs, reqs[i].key, j + 1) - SlippedTokens(c, reqs, reqs[i].key, i + 1)
    ensures Admitted(c, reqs, j) <==> Min(tokens + d * c.rps + slipped, c.capacity as real) >= 1.0
  {
    var gain := IdleTokens(c, reqs, i, j, tokens, d, slipped);
  }

  /**
   What a Retry-After of `w` seconds is worth as long as nothing is admitted on the key in between: `tokens` is what
   the refused request `i` found, and `d` the seconds until request `j`. Waiting long enough helps in any history; the
   wait is exact if the key's requests from `i` to `j` are in order.
   */
  lemma {:induction false} RetryAfterIsExact(
      c: Config, reqs: seq<Request>, i: nat, j: nat, tokens: real, w: nat, d: real)
    requires i < j < |reqs| && reqs[i].key == reqs[j].key && c.rps > 0.0 && c.capacity >= 1
    requires tokens == Tokens(c, After(c, reqs, i), reqs[i]) && Answer(c, After(c, reqs, i), reqs[i]) == Err(w)
    requires AdmittedCount(c, reqs, reqs[i].key, i, j) == 0 && d == reqs[j].time - reqs[i].time
    ensures d >= w as real && WaitFits(c, tokens) ==> Admitted(c, reqs, j)
    ensures C.KeyInOrder(reqs, reqs[i].key, i, j + 1) ==> ExactWait(c, tokens, w, d, Admitted(c, reqs, j))
  {
    var key := reqs[i].key;
    var slipped := SlippedTokens(c, reqs, key, j + 1) - SlippedTokens(c, reqs, key, i + 1);
    var gain := IdleTokens(c, reqs, i, j, tokens, d, slipped);
    assert slipped >= 0.0 by { SlippedTokensRise(c, reqs, key, i + 1, j + 1); }
    assert C.KeyInOrder(reqs, key, i, j + 1) ==> slipped == 0.0 by {
      if C.KeyInOrder(reqs, key, i, j + 1) { NoSlippedTokens(c, reqs, i, j + 1); }
    }
    RefillMeetsWait(c, tokens, d, gain);
  }

  /** Without refill, a bucket that has been found short stays short. */
  lemma {:induction false} DrainedStays(c: Config, reqs: seq<Request>, i: nat, n: nat)
    requires i < n <= |reqs| && c.rps == 0.0 && !Admitted(c, reqs, i)
    ensures reqs[i].key in After(c, reqs, n) && After(c, reqs, n)[reqs[i].key].tokens < 1.0
    decreases n
  {
    if i < n - 1 {
      DrainedStays(c, reqs, i, n - 1);
      NoGain(c, After(c, reqs, n - 1), reqs[n - 1], reqs[i].key);
    }
  }

  lemma {:induction false} NoGain(c: Config, buckets: Buckets, r: Request, key: Key)
    requires c.rps == 0.0 && key in buckets && buckets[key].tokens < 1.0
    ensures Served(c, buckets, r)[key].tokens < 1.0 && (r.key == key ==> Tokens(c, buckets, r) < 1.0)
  {
    assert C.Elapsed(buckets[key].lastRefill, r.time) * c.rps == 0.0;
  }

  /** Then every later check of the key is refused, with the greatest u64 for a Retry-After. */
  lemma {:induction false} NeverAgainWithoutRefill(c: Config, reqs: seq<Request>, i: nat, j: nat)
    requires i < j < |reqs| && reqs[i].key == reqs[j].key && c.rps == 0.0 && !Admitted(c, reqs, i)
    ensures Answer(c, After(c, reqs, j), reqs[j]) == Err(18446744073709551615)
  {
    DrainedStays(c, reqs, i, j);
    NoGain(c, After(c, reqs, j), reqs[j], reqs[i].key);
  }

  // ----- Erasure and independence -----

  /** `keep` marks requests of one key only, and all of its requests that are admitted. */
  predicate KeepsAdmitted(c: Config, reqs: seq<Request>, keep: seq<bool>, key: Key)
    requires |keep| == |reqs|
  {
    forall n :: 0 <= n < |reqs| ==>
      && (keep[n] ==> reqs[n].key == key)
      && (reqs[n].key == key && Admitted(c, reqs, n) ==> keep[n])
  }

  lemma {:induction false} TicksOfKept(rps: real, reqs: seq<Request>, keep: seq<bool>, n: nat)
    requires n <= |reqs| == |keep|
    ensures Ticks(rps, C.Kept(reqs, keep, n)) == C.Kept(Ticks(rps, reqs), keep, n)
  {
    if n > 0 {
      TicksOfKept(rps, reqs, keep, n - 1);
      if keep[n - 1] { TicksExtend(rps, C.Kept(reqs, keep, n - 1), reqs[n - 1]); }
    }
  }

  lemma {:induction false} TicksExtend(rps: real, reqs: seq<Request>, r: Request)
    ensures Ticks(rps, reqs + [r]) == Ticks(rps, reqs) + [Tick(rps, r)]
  {
  }

  lemma {:induction false} LastErasedTicks(rps: real, reqs: seq<Request>, keep: seq<bool>, key: Key, n: nat)
    requires n <= |reqs| == |keep|
    ensures C.LastErased(Ticks(rps, reqs), keep, key, n) == C.LastErased(reqs, keep, key, n)
  {
    if n > 0 { LastErasedTicks(rps, reqs, keep, key, n - 1); }
  }

  lemma {:induction false} TicksEraseForward(rps: real, reqs: seq<Request>, keep: seq<bool>, key: Key)
    requires |reqs| == |keep| && rps >= 0.0 && (rps == 0.0 || C.ErasesForward(reqs, keep, key))
    ensures C.ErasesForward(Ticks(rps, reqs), keep, key)
  {
    forall n | 0 <= n < |reqs| && reqs[n].key == key && (!keep[n] || C.LastErased(Ticks(rps, reqs), keep, key, n))
      ensures C.SlipAt(Ticks(rps, reqs), n) == 0.0
    {
      LastErasedTicks(rps, reqs, keep, key, n);
      SlipScales(rps, reqs, n);
    }
  }

  /**
   Erasing all requests of other keys and any refused requests of the key itself from a history changes none of the
   decisions that remain, unless the key's clock goes back at an erased check or at the next one.
   */
  lemma {:induction false} ErasureKeepsDecisions(c: Config, reqs: seq<Request>, keep: seq<bool>, key: Key)
    requires |reqs| == |keep| && c.rps >= 0.0 && KeepsAdmitted(c, reqs, keep, key)
    requires c.rps == 0.0 || C.ErasesForward(reqs, keep, key)
    ensures Decisions(c, C.Kept(reqs, keep, |reqs|)) == C.Kept(Decisions(c, reqs), keep, |reqs|)
  {
    var cap, ticks, kept := c.capacity as real, Ticks(c.rps, reqs), C.Kept(reqs, keep, |reqs|);
    DecisionsAgree(c, reqs);
    DecisionsAgree(c, kept);
    TicksOfKept(c.rps, reqs, keep, |reqs|);
    TicksEraseForward(c.rps, reqs, keep, key);
    forall n | 0 <= n < |reqs| ensures Admitted(c, reqs, n) == C.Admitted(cap, ticks, n) { ClockAgrees(c, reqs, n); }
    C.ErasureKeepsDecisions(cap, ticks, keep, key, |reqs|);
  }

  /** In any history, the decisions on a key do not depend on the requests of other keys. */
  lemma {:induction false} KeysAreIndependent(c: Config, reqs: seq<Request>, keep: seq<bool>, key: Key)
    requires |reqs| == |keep| && c.rps >= 0.0 && forall n :: 0 <= n < |reqs| ==> (keep[n] <==> reqs[n].key == key)
    ensures Decisions(c, C.Kept(reqs, keep, |reqs|)) == C.Kept(Decisions(c, reqs), keep, |reqs|)
  {
    C.KeptAllErasesForward(reqs, keep, key);
    ErasureKeepsDecisions(c, reqs, keep, key);
  }

  /** If a key's own requests are in order, its refused checks can be erased, whatever the other keys do. */
  lemma {:induction false} RefusedChecksCanBeErased(c: Config, reqs: seq<Request>, keep: seq<bool>, key: Key)
    requires |reqs| == |keep| && c.rps >= 0.0 && KeepsAdmitted(c, reqs, keep, key)
    requires C.KeyInOrder(reqs, key, 0, |reqs|)
    ensures Decisions(c, C.Kept(reqs, keep, |reqs|)) == C.Kept(Decisions(c, reqs), keep, |reqs|)
  {
    C.InOrderErasesForward(reqs, keep, key);
    ErasureKeepsDecisions(c, reqs, keep, key);
  }

  // ----- Overtaken checks -----

  lemma {:induction false} KeptOfThree<T>(x: T, y: T, z: T)
    ensures C.Kept([x, y, z], [true, false, true], 3) == [x, z]
  {
    assert C.Kept([x, y, z], [true, false, true], 1) == [x];
    assert C.Kept([x, y, z], [true, false, true], 2) == [x];
  }

  /**
   The order is needed: a check that takes the only token, one that read the clock `d` seconds earlier and is refused,
   and one at the first one's time again. If d is worth a token, the last one is admitted; without the refused one it
   is refused.
   */
  lemma {:induction false} ErasureNeedsOrder(rps: real, t: real, d: real)
    requires d > 0.0 && d * rps >= 1.0
    ensures var c, keep, at := Config(1, rps), [true, false, true], C.Request("k", t);
      var reqs := [at, C.Request("k", t - d), at];
      KeepsAdmitted(c, reqs, keep, "k") && Decisions(c, C.Kept(reqs, keep, 3)) != C.Kept(Decisions(c, reqs), keep, 3)
  {
    var c, at, before := Config(1, rps), C.Request("k", t), C.Request("k", t - d);
    var reqs := [at, before, at];
    OvertakenDecisions(c, reqs, t, d);
    KeptOfThree(at, before, at);
    var ds := Decisions(c, reqs);
    assert ds == [ds[0], ds[1], ds[2]];
    KeptOfThree(ds[0], ds[1], ds[2]);
    SecondIsRefused(c, t);
    assert Decisions(c, [at, at])[1] != [ds[0], ds[2]][1];
  }

  lemma {:induction false} OvertakenDecisions(c: Config, reqs: seq<Request>, t: real, d: real)
    requires reqs == [C.Request("k", t), C.Request("k", t - d), C.Request("k", t)]
    requires c.capacity == 1 && d > 0.0 && d * c.rps >= 1.0
    ensures Admitted(c, reqs, 0) && !Admitted(c, reqs, 1) && Admitted(c, reqs, 2)
  {
    assert After(c, reqs, 1) == map["k" := C.Bucket(0.0, t)];
    OvertakenRefill(c, reqs, 2, t, d);
  }

  lemma {:induction false} SecondIsRefused(c: Config, t: real)
    requires c.capacity == 1
    ensures !Admitted(c, [C.Request("k", t), C.Request("k", t)], 1)
  {
    assert After(c, [C.Request("k", t), C.Request("k", t)], 1) == map["k" := C.Bucket(0.0, t)];
  }

  /** A drained bucket whose clock was put back by d seconds is refilled for them. */
  lemma {:induction false} OvertakenRefill(c: Config, reqs: seq<Request>, n: nat, t: real, d: real)
    requires 1 <= n < |reqs| && reqs[n - 1] == C.Request("k", t - d) && reqs[n] == C.Request("k", t)
    requires c.capacity == 1 && d > 0.0 && d * c.rps >= 1.0
    requires After(c, reqs, n - 1) == map["k" := C.Bucket(0.0, t)]
    ensures !Admitted(c, reqs, n - 1) && Admitted(c, reqs, n)
  {
    assert After(c, reqs, n) == map["k" := C.Bucket(0.0, t - d)];
    assert C.Elapsed(t - d, t) == d;
  }

  /**
   So is it for Retry-After: the last check comes no time at all after a refusal, with nothing admitted in between, and
   is admitted.
   */
  lemma {:induction false} RetryAfterNeedsOrder(rps: real, t: real, d: real)
    requires d > 0.0 && d * rps >= 1.0
    ensures var c, at := Config(1, rps), C.Request("k", t);
      var reqs := [at, at, C.Request("k", t - d), at];
      && Answer(c, After(c, reqs, 1), at).Err? && Answer(c, After(c, reqs, 1), at).error >= 1
      && AdmittedCount(c, reqs, "k", 1, 3) == 0 && Admitted(c, reqs, 3)
  {
    var c, at := Config(1, rps), C.Request("k", t);
    var reqs := [at, at, C.Request("k", t - d), at];
    assert After(c, reqs, 1) == map["k" := C.Bucket(0.0, t)];
    assert After(c, reqs, 2) == map["k" := C.Bucket(0.0, t)];
    assert Tokens(c, After(c, reqs, 1), at) == 0.0;
    WholeSeconds(c, 0.0);
    OvertakenRefill(c, reqs, 3, t, d);
    assert !Admitted(c, reqs, 1) && AdmittedCount(c, reqs, "k", 1, 2) == 0;
  }

  /** A refusal never advises to come back at once. */
  lemma {:induction false} WholeSeconds(c: Config, tokens: real)
    requires tokens < 1.0
    ensures RetryAfter(c, tokens) >= 1
  {
  }
}
