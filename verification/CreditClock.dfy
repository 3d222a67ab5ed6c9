/**
 Lazily refilled buckets on a credit clock: time is measured in the tokens it refills, so one unit of time is one
 token. The rate limiter is this, with its seconds scaled by its rate.
 */
module CreditClock {
  import opened Reals
  import opened Wrappers
  import opened TokenAccount

  datatype Bucket = Bucket(tokens: real, lastRefill: real)

  type Buckets = map<Key, Bucket>

  datatype Request = Request(key: Key, time: real)

  /** Time passed since `last`; none if the clock was read before `last`. */
  function Elapsed(last: real, now: real): (d: real)
    ensures d >= 0.0
  {
    if now > last then now - last else 0.0
  }

  /** The bucket of the key, or a full one for a key not seen before. */
  function BucketFor(cap: real, buckets: Buckets, r: Request): Bucket {
    if r.key in buckets then buckets[r.key] else Bucket(cap, r.time)
  }

  function TokensAt(cap: real, b: Bucket, now: real): real {
    Min(b.tokens + Elapsed(b.lastRefill, now), cap)
  }

  function Tokens(cap: real, buckets: Buckets, r: Request): real {
    TokensAt(cap, BucketFor(cap, buckets, r), r.time)
  }

  function Served(cap: real, buckets: Buckets, r: Request): Buckets {
    var tokens := Tokens(cap, buckets, r);
    buckets[r.key := Bucket(if tokens >= 1.0 then tokens - 1.0 else tokens, r.time)]
  }

  // ----- Whole histories -----

  /** The buckets after the first `n` requests. */
  function After(cap: real, reqs: seq<Request>, n: nat): Buckets
    requires n <= |reqs|
  {
    if n == 0 then map[] else Served(cap, After(cap, reqs, n - 1), reqs[n - 1])
  }

  predicate Admitted(cap: real, reqs: seq<Request>, j: nat)
    requires j < |reqs|
  {
    Tokens(cap, After(cap, reqs, j), reqs[j]) >= 1.0
  }

  /** The decisions on the first `n` requests. */
  function Decisions(cap: real, reqs: seq<Request>, n: nat): (ds: seq<bool>)
    requires n <= |reqs|
    ensures |ds| == n
  {
    if n == 0 then [] else Decisions(cap, reqs, n - 1) + [Admitted(cap, reqs, n - 1)]
  }

  /** The key's requests from `i` up to `j` reach the lock in the order of their clock readings. */
  predicate KeyInOrder(reqs: seq<Request>, key: Key, i: nat, j: nat)
    requires j <= |reqs|
  {
    forall a, b :: i <= a <= b < j && reqs[a].key == key && reqs[b].key == key ==> reqs[a].time <= reqs[b].time
  }

  /** The time of the key's last request among the first `n`. */
  function LastSeen(reqs: seq<Request>, key: Key, n: nat): Option<real>
    requires n <= |reqs|
  {
    if n == 0 then None
    else if reqs[n - 1].key == key then Some(reqs[n - 1].time)
    else LastSeen(reqs, key, n - 1)
  }

  /** The time request `n` adds to its key's bucket; none if it is the key's first. */
  function Waited(reqs: seq<Request>, n: nat): real
    requires n < |reqs|
  {
    match LastSeen(reqs, reqs[n].key, n)
    case None => 0.0
    case Some(last) => Elapsed(last, reqs[n].time)
  }

  /** The first `n` requests as offerings to token accounts. */
  function Offerings(reqs: seq<Request>, n: nat): (os: seq<Offering>)
    requires n <= |reqs|
    ensures |os| == n
  {
    if n == 0 then []
    else Offerings(reqs, n - 1) + [Offering(reqs[n - 1].key, Waited(reqs, n - 1))]
  }

  /** The requests `i` to `j - 1` of the key that are admitted. */
  function AdmittedCount(cap: real, reqs: seq<Request>, key: Key, i: nat, j: nat): nat
    requires i <= j <= |reqs|
  {
    Count(Offerings(reqs, |reqs|), Decisions(cap, reqs, |reqs|), key, i, j)
  }

  lemma {:induction false} OfferingAt(reqs: seq<Request>, n: nat, j: nat)
    requires j < n <= |reqs|
    ensures Offerings(reqs, n)[j] == Offering(reqs[j].key, Waited(reqs, j))
  {
    if j < n - 1 { OfferingAt(reqs, n - 1, j); }
  }

  lemma {:induction false} DecisionAt(cap: real, reqs: seq<Request>, n: nat, j: nat)
    requires j < n <= |reqs|
    ensures Decisions(cap, reqs, n)[j] == Admitted(cap, reqs, j)
  {
    if j < n - 1 { DecisionAt(cap, reqs, n - 1, j); }
  }

  lemma {:induction false} OfferingsGrow(reqs: seq<Request>, n: nat)
    requires n <= |reqs|
    ensures Growing(Offerings(reqs, n))
  {
    if n > 0 { OfferingsGrow(reqs, n - 1); }
  }

  // ----- The limiter keeps the account of its own decisions -----

  predicate LevelAgrees(cap: real, buckets: Buckets, key: Key, level: real) {
    if key in buckets then buckets[key].tokens == level else level == cap
  }

  /** The bucket's own clock is the key's last request. */
  lemma {:induction false} LastRefill(cap: real, reqs: seq<Request>, key: Key, n: nat)
    requires n <= |reqs|
    ensures match LastSeen(reqs, key, n)
      case None => key !in After(cap, reqs, n)
      case Some(last) => key in After(cap, reqs, n) && After(cap, reqs, n)[key].lastRefill == last
  {
    if n > 0 { LastRefill(cap, reqs, key, n - 1); }
  }

  lemma {:induction false} TokensFromLevel(cap: real, buckets: Buckets, r: Request, level: real, waited: real)
    requires LevelAgrees(cap, buckets, r.key, level)
    requires waited == if r.key in buckets then Elapsed(buckets[r.key].lastRefill, r.time) else 0.0
    ensures Tokens(cap, buckets, r) == Min(level + waited, cap)
  {
  }

  lemma {:induction false} ServedLevel(cap: real, buckets: Buckets, r: Request, key: Key, level: real)
    requires r.key != key && LevelAgrees(cap, buckets, key, level)
    ensures LevelAgrees(cap, Served(cap, buckets, r), key, level)
  {
  }

  lemma {:induction false} LimiterLevel(cap: real, reqs: seq<Request>, key: Key, n: nat)
    requires n <= |reqs|
    ensures LevelAgrees(cap, After(cap, reqs, n), key,
              Level(cap, Offerings(reqs, |reqs|), Decisions(cap, reqs, |reqs|), key, n))
    decreases n, 0
  {
    if n > 0 {
      LimiterLevel(cap, reqs, key, n - 1);
      OfferingAt(reqs, |reqs|, n - 1);
      if reqs[n - 1].key == key {
        LimiterTokens(cap, reqs, n - 1);
        DecisionAt(cap, reqs, |reqs|, n - 1);
      } else {
        ServedLevel(cap, After(cap, reqs, n - 1), reqs[n - 1], key,
          Level(cap, Offerings(reqs, |reqs|), Decisions(cap, reqs, |reqs|), key, n - 1));
      }
    }
  }

  /** The tokens at a request are what the account offers, and the limiter is greedy about them. */
  lemma {:induction false} LimiterTokens(cap: real, reqs: seq<Request>, n: nat)
    requires n < |reqs|
    ensures var os, p := Offerings(reqs, |reqs|), Decisions(cap, reqs, |reqs|);
      && Tokens(cap, After(cap, reqs, n), reqs[n]) == Offer(cap, os, p, n)
      && (p[n] <==> Offer(cap, os, p, n) >= 1.0)
    decreases n, 1
  {
    var os, p := Offerings(reqs, |reqs|), Decisions(cap, reqs, |reqs|);
    LimiterLevel(cap, reqs, reqs[n].key, n);
    OfferingAt(reqs, |reqs|, n);
    DecisionAt(cap, reqs, |reqs|, n);
    LastRefill(cap, reqs, reqs[n].key, n);
    TokensFromLevel(cap, After(cap, reqs, n), reqs[n],
                    Level(cap, os, p, reqs[n].key, n), Waited(reqs, n));
  }

  lemma {:induction false} LimiterIsGreedy(cap: real, reqs: seq<Request>)
    ensures Greedy(cap, Offerings(reqs, |reqs|), Decisions(cap, reqs, |reqs|))
    ensures Feasible(cap, Offerings(reqs, |reqs|), Decisions(cap, reqs, |reqs|))
  {
    var os, p := Offerings(reqs, |reqs|), Decisions(cap, reqs, |reqs|);
    forall n | 0 <= n < |reqs| ensures p[n] <==> Offer(cap, os, p, n) >= 1.0 {
      LimiterTokens(cap, reqs, n);
    }
  }

  /**
   For any requests, and any other policy that admits only when its own bucket, of the same capacity and
   refill, holds a token: after every prefix the limiter has admitted at least as many.
   */
  lemma {:induction false} LimiterIsOptimal(cap: real, reqs: seq<Request>, p: seq<bool>, key: Key, n: nat)
    requires n <= |reqs| == |p| && Feasible(cap, Offerings(reqs, |reqs|), p)
    ensures Count(Offerings(reqs, |reqs|), p, key, 0, n) <= AdmittedCount(cap, reqs, key, 0, n)
  {
    OfferingsGrow(reqs, |reqs|);
    LimiterIsGreedy(cap, reqs);
    GreedyIsOptimal(cap, Offerings(reqs, |reqs|), Decisions(cap, reqs, |reqs|), p, key, n);
  }

  // ----- Credit is time -----

  /** How far request `n` puts its key's clock back. */
  function SlipAt(reqs: seq<Request>, n: nat): (d: real)
    requires n < |reqs|
    ensures d >= 0.0
  {
    match LastSeen(reqs, reqs[n].key, n)
    case None => 0.0
    case Some(last) => Elapsed(reqs[n].time, last)
  }

  /** How far the key's clock has been put back, in all, by the first `n` requests. */
  function Slipped(reqs: seq<Request>, key: Key, n: nat): real
    requires n <= |reqs|
  {
    if n == 0 then 0.0 else Slipped(reqs, key, n - 1) + if reqs[n - 1].key == key then SlipAt(reqs, n - 1) else 0.0
  }

  lemma {:induction false} SeenKey(reqs: seq<Request>, i: nat, n: nat) returns (last: nat)
    requires i < n <= |reqs|
    ensures i <= last < n && reqs[last].key == reqs[i].key && LastSeen(reqs, reqs[i].key, n) == Some(reqs[last].time)
    ensures Credit(Offerings(reqs, |reqs|), reqs[i].key, last + 1) == Credit(Offerings(reqs, |reqs|), reqs[i].key, n)
    ensures Slipped(reqs, reqs[i].key, last + 1) == Slipped(reqs, reqs[i].key, n)
  {
    OfferingAt(reqs, |reqs|, n - 1);
    if reqs[n - 1].key == reqs[i].key {
      last := n - 1;
    } else {
      last := SeenKey(reqs, i, n - 1);
    }
  }

  /** The credit between two requests of a key is the time between them and every slip of the clock. */
  lemma {:induction false} CreditIsTime(reqs: seq<Request>, i: nat, j: nat)
    requires i <= j < |reqs| && reqs[i].key == reqs[j].key
    ensures var os, key := Offerings(reqs, |reqs|), reqs[i].key;
      Credit(os, key, j + 1) - Credit(os, key, i + 1)
      == reqs[j].time - reqs[i].time + (Slipped(reqs, key, j + 1) - Slipped(reqs, key, i + 1))
    decreases j
  {
    if i < j {
      var last := SeenKey(reqs, i, j);
      CreditIsTime(reqs, i, last);
      OfferingAt(reqs, |reqs|, j);
    }
  }

  lemma {:induction false} SlippedRises(reqs: seq<Request>, key: Key, i: nat, j: nat)
    requires i <= j <= |reqs|
    ensures Slipped(reqs, key, i) <= Slipped(reqs, key, j)
    decreases j
  {
    if i < j { SlippedRises(reqs, key, i, j - 1); }
  }

  lemma {:induction false} NoSlips(reqs: seq<Request>, i: nat, n: nat)
    requires i < n <= |reqs| && KeyInOrder(reqs, reqs[i].key, i, n)
    ensures Slipped(reqs, reqs[i].key, i + 1) == Slipped(reqs, reqs[i].key, n)
    decreases n
  {
    if i + 1 < n {
      NoSlips(reqs, i, n - 1);
      if reqs[n - 1].key == reqs[i].key {
        var last := SeenKey(reqs, i, n - 1);
        assert reqs[last].time <= reqs[n - 1].time;
      }
    }
  }

  lemma {:induction false} DisorderSlips(reqs: seq<Request>, a: nat, b: nat)
    requires a <= b < |reqs| && reqs[a].key == reqs[b].key && reqs[a].time > reqs[b].time
    ensures Slipped(reqs, reqs[a].key, a + 1) < Slipped(reqs, reqs[a].key, b + 1)
  {
    CreditIsTime(reqs, a, b);
    OfferingsGrow(reqs, |reqs|);
    CreditRises(Offerings(reqs, |reqs|), reqs[a].key, a + 1, b + 1);
  }

  /** After a request of its own, a key's clock slips exactly if its readings are not in order. */
  lemma {:induction false} SlipsAreDisorder(reqs: seq<Request>, i: nat, n: nat)
    requires i < n <= |reqs|
    ensures Slipped(reqs, reqs[i].key, i + 1) == Slipped(reqs, reqs[i].key, n) <==> KeyInOrder(reqs, reqs[i].key, i, n)
  {
    var key := reqs[i].key;
    if KeyInOrder(reqs, key, i, n) {
      NoSlips(reqs, i, n);
    } else {
      var a, b :| i <= a <= b < n && reqs[a].key == key && reqs[b].key == key && reqs[a].time > reqs[b].time;
      SlippedRises(reqs, key, i + 1, a + 1);
      DisorderSlips(reqs, a, b);
      SlippedRises(reqs, key, b + 1, n);
    }
  }

  /** A window admits at most the capacity, its length and the slips of the clock in it. */
  lemma {:induction false} WindowBound(cap: real, reqs: seq<Request>, i: nat, j: nat)
    requires i <= j < |reqs| && reqs[i].key == reqs[j].key && cap >= 0.0
    ensures var key := reqs[i].key;
      AdmittedCount(cap, reqs, key, i, j + 1) as real
      <= cap + (reqs[j].time - reqs[i].time + (Slipped(reqs, key, j + 1) - Slipped(reqs, key, i + 1)))
  {
    OfferingsGrow(reqs, |reqs|);
    LimiterIsGreedy(cap, reqs);
    OfferingAt(reqs, |reqs|, i);
    OfferingAt(reqs, |reqs|, j);
    WindowCredit(cap, Offerings(reqs, |reqs|), Decisions(cap, reqs, |reqs|), i, j);
    CreditIsTime(reqs, i, j);
  }

  /**
   With nothing admitted in between, the bucket has just been refilling since request `i`, over the time in between
   and every slip of the key's clock.
   */
  lemma {:induction false} IdleDecision(cap: real, reqs: seq<Request>, i: nat, j: nat)
    requires i < j < |reqs| && reqs[i].key == reqs[j].key
    requires AdmittedCount(cap, reqs, reqs[i].key, i, j) == 0
    ensures var tokens, key := Tokens(cap, After(cap, reqs, i), reqs[i]), reqs[i].key;
      Admitted(cap, reqs, j) <==>
      Min(tokens + (reqs[j].time - reqs[i].time + (Slipped(reqs, key, j + 1) - Slipped(reqs, key, i + 1))), cap) >= 1.0
  {
    OfferingsGrow(reqs, |reqs|);
    OfferingAt(reqs, |reqs|, i);
    OfferingAt(reqs, |reqs|, j);
    LimiterTokens(cap, reqs, i);
    LimiterTokens(cap, reqs, j);
    IdleOffer(cap, Offerings(reqs, |reqs|), Decisions(cap, reqs, |reqs|), i, j);
    CreditIsTime(reqs, i, j);
  }

  // ----- The closed form in time -----

  /**
   What the bucket would hold at request `n` had it been full when it admitted request `i`: the capacity, the time
   and the slips since, less the admissions since.
   */
  function SinceAdmission(cap: real, reqs: seq<Request>, i: nat, n: nat): real
    requires i < n < |reqs|
  {
    var key := reqs[i].key;
    cap + (reqs[n].time - reqs[i].time + (Slipped(reqs, key, n + 1) - Slipped(reqs, key, i + 1)))
    - AdmittedCount(cap, reqs, key, i, n) as real
  }

  lemma {:induction false} SinceFullInTime(cap: real, reqs: seq<Request>, i: nat, n: nat)
    requires i < n < |reqs| && reqs[i].key == reqs[n].key
    ensures SinceFull(cap, Offerings(reqs, |reqs|), Decisions(cap, reqs, |reqs|), i, n)
         == SinceAdmission(cap, reqs, i, n)
  {
    OfferingAt(reqs, |reqs|, i);
    CreditIsTime(reqs, i, n);
  }

  predicate EarlierAdmitted(cap: real, reqs: seq<Request>, i: nat, n: nat)
    requires i < n < |reqs|
  {
    reqs[i].key == reqs[n].key && Admitted(cap, reqs, i)
  }

  /** `tokens` is the least of the capacity and what is left since each earlier admission. */
  ghost predicate LeastSinceAdmission(cap: real, reqs: seq<Request>, n: nat, tokens: real)
    requires n < |reqs|
  {
    && tokens <= cap
    && (forall i :: 0 <= i < n && EarlierAdmitted(cap, reqs, i, n) ==> tokens <= SinceAdmission(cap, reqs, i, n))
    && (|| tokens == cap
        || exists i :: 0 <= i < n && EarlierAdmitted(cap, reqs, i, n) && tokens == SinceAdmission(cap, reqs, i, n))
  }

  lemma {:induction false} EarlierAgrees(cap: real, reqs: seq<Request>, i: nat, n: nat)
    requires i < n < |reqs|
    ensures EarlierAdmission(Offerings(reqs, |reqs|), Decisions(cap, reqs, |reqs|), i, n)
       <==> EarlierAdmitted(cap, reqs, i, n)
  {
    OfferingAt(reqs, |reqs|, i);
    OfferingAt(reqs, |reqs|, n);
    DecisionAt(cap, reqs, |reqs|, i);
  }

  /** The min-plus closed form of the lazily refilled tokens. */
  lemma {:induction false} LazyRefillClosedForm(cap: real, reqs: seq<Request>, n: nat)
    requires n < |reqs|
    ensures LeastSinceAdmission(cap, reqs, n, Tokens(cap, After(cap, reqs, n), reqs[n]))
  {
    var os, p := Offerings(reqs, |reqs|), Decisions(cap, reqs, |reqs|);
    OfferingsGrow(reqs, |reqs|);
    LimiterTokens(cap, reqs, n);
    ClosedForm(cap, os, p, n);
    forall i | 0 <= i < n
      ensures EarlierAdmission(os, p, i, n) <==> EarlierAdmitted(cap, reqs, i, n)
      ensures EarlierAdmitted(cap, reqs, i, n) ==> SinceFull(cap, os, p, i, n) == SinceAdmission(cap, reqs, i, n)
    {
      EarlierAgrees(cap, reqs, i, n);
      if EarlierAdmitted(cap, reqs, i, n) { SinceFullInTime(cap, reqs, i, n); }
    }
  }

  // ----- Erasure and independence -----

  /** The elements among the first `n` that `keep` marks. */
  function Kept<T>(xs: seq<T>, keep: seq<bool>, n: nat): seq<T>
    requires n <= |xs| == |keep|
  {
    if n == 0 then []
    else if keep[n - 1] then Kept(xs, keep, n - 1) + [xs[n - 1]]
    else Kept(xs, keep, n - 1)
  }

  /** `keep` marks requests of one key only, and all of its requests that are admitted. */
  predicate KeepsAdmitted(cap: real, reqs: seq<Request>, keep: seq<bool>, key: Key)
    requires |keep| == |reqs|
  {
    forall n :: 0 <= n < |reqs| ==>
      && (keep[n] ==> reqs[n].key == key)
      && (reqs[n].key == key && Admitted(cap, reqs, n) ==> keep[n])
  }

  lemma {:induction false} AfterPrefix(cap: real, a: seq<Request>, b: seq<Request>, n: nat)
    requires n <= |a| && n <= |b| && a[..n] == b[..n]
    ensures After(cap, a, n) == After(cap, b, n) && Decisions(cap, a, n) == Decisions(cap, b, n)
  {
    if n > 0 {
      assert a[..n - 1] == a[..n][..n - 1] == b[..n - 1];
      assert a[n - 1] == a[..n][n - 1] == b[n - 1];
      AfterPrefix(cap, a, b, n - 1);
    }
  }

  lemma {:induction false} DecisionsExtend(cap: real, reqs: seq<Request>, r: Request)
    ensures Decisions(cap, reqs + [r], |reqs| + 1)
         == Decisions(cap, reqs, |reqs|) + [Tokens(cap, After(cap, reqs, |reqs|), r) >= 1.0]
    ensures After(cap, reqs + [r], |reqs| + 1) == Served(cap, After(cap, reqs, |reqs|), r)
  {
    assert (reqs + [r])[..|reqs|] == reqs[..|reqs|];
    AfterPrefix(cap, reqs + [r], reqs, |reqs|);
  }

  /** The bucket of the kept history, refilled up to the last request of the full one, is the full one's. */
  predicate Lags(cap: real, full: Buckets, kept: Buckets, key: Key) {
    if key in kept then
      && key in full && kept[key].lastRefill <= full[key].lastRefill
      && full[key].tokens == TokensAt(cap, kept[key], full[key].lastRefill)
    else key in full ==> full[key].tokens == cap
  }

  predicate Same(full: Buckets, kept: Buckets, key: Key) {
    (key in full <==> key in kept) && (key in full ==> full[key] == kept[key])
  }

  /** The key's bucket of the kept history is the full one's, or lags behind it if its last request was erased. */
  predicate Follows(cap: real, full: Buckets, kept: Buckets, key: Key, erased: bool) {
    if erased then Lags(cap, full, kept, key) else Same(full, kept, key)
  }

  /** The request does not put the clock of the key's bucket back. */
  predicate Forward(full: Buckets, r: Request) {
    r.key in full ==> full[r.key].lastRefill <= r.time
  }

  /** Capped refills compose. */
  lemma {:induction false} RefillsCompose(cap: real, b: Bucket, mid: real, now: real)
    requires b.lastRefill <= mid <= now
    ensures TokensAt(cap, Bucket(TokensAt(cap, b, mid), mid), now) == TokensAt(cap, b, now)
  {
    CappedTwice(b.tokens, mid - b.lastRefill, now - mid, cap);
  }

  /** So the two buckets hold the same at the key's next request. */
  lemma {:induction false} FollowsToSameTokens(cap: real, full: Buckets, kept: Buckets, r: Request, erased: bool)
    requires Follows(cap, full, kept, r.key, erased) && (erased ==> Forward(full, r))
    ensures Tokens(cap, full, r) == Tokens(cap, kept, r)
  {
    if erased && r.key in kept {
      RefillsCompose(cap, kept[r.key], full[r.key].lastRefill, r.time);
    }
  }

  lemma {:induction false} SameAfterKept(cap: real, full: Buckets, kept: Buckets, r: Request)
    requires Tokens(cap, full, r) == Tokens(cap, kept, r)
    ensures Same(Served(cap, full, r), Served(cap, kept, r), r.key)
  {
  }

  lemma {:induction false} LagsAfterErased(cap: real, full: Buckets, kept: Buckets, r: Request, erased: bool)
    requires Follows(cap, full, kept, r.key, erased) && Forward(full, r) && Tokens(cap, full, r) < 1.0
    ensures Lags(cap, Served(cap, full, r), kept, r.key)
  {
    FollowsToSameTokens(cap, full, kept, r, erased);
  }

  lemma {:induction false} FollowsOtherKey(
      cap: real, full: Buckets, kept: Buckets, r: Request, key: Key, erased: bool)
    requires Follows(cap, full, kept, key, erased) && r.key != key
    ensures Follows(cap, Served(cap, full, r), kept, key, erased)
  {
  }

  /** The key's last request among the first `n` was erased. */
  predicate LastErased(reqs: seq<Request>, keep: seq<bool>, key: Key, n: nat)
    requires n <= |reqs| == |keep|
  {
    n > 0 && if reqs[n - 1].key == key then !keep[n - 1] else LastErased(reqs, keep, key, n - 1)
  }

  /** Where a check of the key is erased, its clock goes back neither at that check nor at the next one. */
  predicate ErasesForward(reqs: seq<Request>, keep: seq<bool>, key: Key)
    requires |reqs| == |keep|
  {
    forall n :: 0 <= n < |reqs| && reqs[n].key == key && (!keep[n] || LastErased(reqs, keep, key, n)) ==>
      SlipAt(reqs, n) == 0.0
  }

  lemma {:induction false} NoSlipIsForward(cap: real, reqs: seq<Request>, n: nat)
    requires n < |reqs|
    ensures SlipAt(reqs, n) == 0.0 <==> Forward(After(cap, reqs, n), reqs[n])
  {
    LastRefill(cap, reqs, reqs[n].key, n);
  }

  /** The kept history has made the kept decisions, and its bucket follows the full one's. */
  predicate Faithful(
    cap: real, reqs: seq<Request>, n: nat, kept: seq<Request>, decisions: seq<bool>, key: Key, erased: bool)
    requires n <= |reqs|
  {
    && Decisions(cap, kept, |kept|) == decisions
    && Follows(cap, After(cap, reqs, n), After(cap, kept, |kept|), key, erased)
  }

  lemma {:induction false} KeepsOne(
      cap: real, reqs: seq<Request>, n: nat, kept: seq<Request>, decisions: seq<bool>, erased: bool)
    requires n < |reqs| && Faithful(cap, reqs, n, kept, decisions, reqs[n].key, erased)
    requires erased ==> SlipAt(reqs, n) == 0.0
    ensures Faithful(cap, reqs, n + 1, kept + [reqs[n]], decisions + [Admitted(cap, reqs, n)], reqs[n].key, false)
  {
    var full, lagging := After(cap, reqs, n), After(cap, kept, |kept|);
    NoSlipIsForward(cap, reqs, n);
    FollowsToSameTokens(cap, full, lagging, reqs[n], erased);
    DecisionsExtend(cap, kept, reqs[n]);
    SameAfterKept(cap, full, lagging, reqs[n]);
  }

  lemma {:induction false} ErasesOne(
      cap: real, reqs: seq<Request>, n: nat, kept: seq<Request>, decisions: seq<bool>, erased: bool)
    requires n < |reqs| && Faithful(cap, reqs, n, kept, decisions, reqs[n].key, erased)
    requires SlipAt(reqs, n) == 0.0 && !Admitted(cap, reqs, n)
    ensures Faithful(cap, reqs, n + 1, kept, decisions, reqs[n].key, true)
  {
    NoSlipIsForward(cap, reqs, n);
    LagsAfterErased(cap, After(cap, reqs, n), After(cap, kept, |kept|), reqs[n], erased);
  }

  lemma {:induction false} PassesOther(
      cap: real, reqs: seq<Request>, n: nat, kept: seq<Request>, decisions: seq<bool>, key: Key, erased: bool)
    requires n < |reqs| && reqs[n].key != key && Faithful(cap, reqs, n, kept, decisions, key, erased)
    ensures Faithful(cap, reqs, n + 1, kept, decisions, key, erased)
  {
    FollowsOtherKey(cap, After(cap, reqs, n), After(cap, kept, |kept|), reqs[n], key, erased);
  }

  lemma {:induction false} FaithfulAtFirst(cap: real, reqs: seq<Request>, key: Key)
    ensures Faithful(cap, reqs, 0, [], [], key, false)
  {
  }

  /** One more request, kept or erased. */
  lemma {:induction false} KeepsOrErases(
      cap: real, reqs: seq<Request>, n: nat, keep: bool, kept: seq<Request>, decisions: seq<bool>, key: Key,
      erased: bool)
    requires n < |reqs| && Faithful(cap, reqs, n, kept, decisions, key, erased)
    requires keep ==> reqs[n].key == key
    requires reqs[n].key == key ==> (Admitted(cap, reqs, n) ==> keep) && (!keep || erased ==> SlipAt(reqs, n) == 0.0)
    ensures Faithful(cap, reqs, n + 1, if keep then kept + [reqs[n]] else kept,
                     if keep then decisions + [Admitted(cap, reqs, n)] else decisions, key,
                     if reqs[n].key == key then !keep else erased)
  {
    if reqs[n].key != key {
      PassesOther(cap, reqs, n, kept, decisions, key, erased);
    } else if keep {
      KeepsOne(cap, reqs, n, kept, decisions, erased);
    } else {
      ErasesOne(cap, reqs, n, kept, decisions, erased);
    }
  }

  lemma {:induction false} ErasureStep(
      cap: real, reqs: seq<Request>, all: seq<bool>, keep: seq<bool>, key: Key, n: nat, kept: seq<Request>,
      decisions: seq<bool>)
    requires n < |reqs| == |keep| && KeepsAdmitted(cap, reqs, keep, key) && ErasesForward(reqs, keep, key)
    requires all == Decisions(cap, reqs, |reqs|)
    requires Faithful(cap, reqs, n, kept, decisions, key, LastErased(reqs, keep, key, n))
    ensures Faithful(cap, reqs, n + 1, if keep[n] then kept + [reqs[n]] else kept,
                     if keep[n] then decisions + [all[n]] else decisions, key, LastErased(reqs, keep, key, n + 1))
  {
    DecisionAt(cap, reqs, |reqs|, n);
    KeepsOrErases(cap, reqs, n, keep[n], kept, decisions, key, LastErased(reqs, keep, key, n));
  }

  /**
   Erasing all requests of other keys and any refused requests of the key itself from a history changes
   none of the decisions that remain, if the key's clock does not go back at an erased check or the next one.
   */
  lemma {:induction false} ErasureKeepsDecisions(
      cap: real, reqs: seq<Request>, keep: seq<bool>, key: Key, n: nat)
    requires n <= |reqs| == |keep| && KeepsAdmitted(cap, reqs, keep, key) && ErasesForward(reqs, keep, key)
    ensures Faithful(cap, reqs, n, Kept(reqs, keep, n), Kept(Decisions(cap, reqs, |reqs|), keep, n), key,
                     LastErased(reqs, keep, key, n))
  {
    if n == 0 {
      FaithfulAtFirst(cap, reqs, key);
    } else {
      var all := Decisions(cap, reqs, |reqs|);
      ErasureKeepsDecisions(cap, reqs, keep, key, n - 1);
      ErasureStep(cap, reqs, all, keep, key, n - 1, Kept(reqs, keep, n - 1), Kept(all, keep, n - 1));
    }
  }

  lemma {:induction false} KeptAllErasesForward(reqs: seq<Request>, keep: seq<bool>, key: Key)
    requires |reqs| == |keep| && forall n :: 0 <= n < |reqs| && reqs[n].key == key ==> keep[n]
    ensures ErasesForward(reqs, keep, key)
  {
    forall n | 0 <= n < |reqs| ensures !LastErased(reqs, keep, key, n) { NoneErased(reqs, keep, key, n); }
  }

  lemma {:induction false} NoneErased(reqs: seq<Request>, keep: seq<bool>, key: Key, n: nat)
    requires n <= |reqs| == |keep| && forall k :: 0 <= k < |reqs| && reqs[k].key == key ==> keep[k]
    ensures !LastErased(reqs, keep, key, n)
  {
    if n > 0 { NoneErased(reqs, keep, key, n - 1); }
  }

  lemma {:induction false} InOrderErasesForward(reqs: seq<Request>, keep: seq<bool>, key: Key)
    requires |reqs| == |keep| && KeyInOrder(reqs, key, 0, |reqs|)
    ensures ErasesForward(reqs, keep, key)
  {
    forall n | 0 <= n < |reqs| && reqs[n].key == key ensures SlipAt(reqs, n) == 0.0 {
      LastSeenEarlier(reqs, key, n, n);
    }
  }

  lemma {:induction false} LastSeenEarlier(reqs: seq<Request>, key: Key, m: nat, n: nat)
    requires m <= n < |reqs| && reqs[n].key == key && KeyInOrder(reqs, key, 0, |reqs|)
    ensures LastSeen(reqs, key, m).Some? ==> LastSeen(reqs, key, m).value <= reqs[n].time
  {
    if m > 0 && reqs[m - 1].key != key { LastSeenEarlier(reqs, key, m - 1, n); }
  }
}
