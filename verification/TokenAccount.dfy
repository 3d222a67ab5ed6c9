/**
 Token accounts: what a bucket of a given capacity holds when request after request offers it some
 credit and a policy decides which of them to admit. Nothing here depends on how credit comes about.
 */
module TokenAccount {
  import opened Reals

  type Key = string

  /** A request of a key, and the tokens refilled since the key's last request, before the cap. */
  datatype Offering = Offering(key: Key, gain: real)

  /** Credit never shrinks. */
  predicate Growing(os: seq<Offering>) {
    forall n :: 0 <= n < |os| ==> os[n].gain >= 0.0
  }

  /** The requests `i` to `j - 1` of the key that `p` admits. */
  function Count(os: seq<Offering>, p: seq<bool>, key: Key, i: nat, j: nat): nat
    requires i <= j <= |os| == |p|
    decreases j - i
  {
    if i == j then 0
    else Count(os, p, key, i, j - 1) + (if os[j - 1].key == key && p[j - 1] then 1 else 0)
  }

  /** All credit offered to the key by the first `n` requests. */
  function Credit(os: seq<Offering>, key: Key, n: nat): real
    requires n <= |os|
  {
    if n == 0 then 0.0
    else Credit(os, key, n - 1) + if os[n - 1].key == key then os[n - 1].gain else 0.0
  }

  /** The tokens left after the first `n` requests in the key's bucket if it admits what `p` says. */
  function Level(cap: real, os: seq<Offering>, p: seq<bool>, key: Key, n: nat): real
    requires n <= |os| == |p|
    decreases n, 0
  {
    if n == 0 then cap
    else if os[n - 1].key != key then Level(cap, os, p, key, n - 1)
    else Offer(cap, os, p, n - 1) - if p[n - 1] then 1.0 else 0.0
  }

  /** The tokens that bucket has when request `n` is decided. */
  function Offer(cap: real, os: seq<Offering>, p: seq<bool>, n: nat): real
    requires n < |os| == |p|
    decreases n, 1
  {
    Min(Level(cap, os, p, os[n].key, n) + os[n].gain, cap)
  }

  /** `p` admits only when its own bucket holds a token. */
  predicate Feasible(cap: real, os: seq<Offering>, p: seq<bool>)
    requires |os| == |p|
  {
    forall n :: 0 <= n < |os| && p[n] ==> Offer(cap, os, p, n) >= 1.0
  }

  /** `p` admits whenever it can. */
  predicate Greedy(cap: real, os: seq<Offering>, p: seq<bool>)
    requires |os| == |p|
  {
    forall n :: 0 <= n < |os| ==> (p[n] <==> Offer(cap, os, p, n) >= 1.0)
  }

  lemma {:induction false} CreditRises(os: seq<Offering>, key: Key, i: nat, j: nat)
    requires i <= j <= |os| && Growing(os)
    ensures Credit(os, key, i) <= Credit(os, key, j)
    decreases j - i
  {
    if i < j {
      CreditRises(os, key, i, j - 1);
    }
  }

  lemma {:induction false} LevelIsCapped(cap: real, os: seq<Offering>, p: seq<bool>, key: Key, n: nat)
    requires n <= |os| == |p|
    ensures Level(cap, os, p, key, n) <= cap
    decreases n
  {
    if n > 0 && os[n - 1].key != key {
      LevelIsCapped(cap, os, p, key, n - 1);
    }
  }

  lemma {:induction false} LevelStaysUp(cap: real, os: seq<Offering>, p: seq<bool>, key: Key, n: nat)
    requires n <= |os| == |p| && cap >= 0.0 && Growing(os) && Feasible(cap, os, p)
    ensures Level(cap, os, p, key, n) >= 0.0
    decreases n
  {
    if n > 0 {
      LevelStaysUp(cap, os, p, key, n - 1);
    }
  }

  /** Tokens and admissions since request `i` never exceed the capacity and the credit since. */
  lemma {:induction false} Account(cap: real, os: seq<Offering>, p: seq<bool>, i: nat, j: nat)
    requires i < j <= |os| == |p| && Growing(os)
    ensures var key := os[i].key;
      Level(cap, os, p, key, j) + Count(os, p, key, i, j) as real
      <= cap + (Credit(os, key, j) - Credit(os, key, i + 1))
    decreases j
  {
    if j == i + 1 {
      assert Count(os, p, os[i].key, i, i) == 0;
    } else {
      Account(cap, os, p, i, j - 1);
    }
  }

  /** From request `i` to request `j` of a key, both included, at most `cap` and the credit between them. */
  lemma {:induction false} WindowCredit(cap: real, os: seq<Offering>, p: seq<bool>, i: nat, j: nat)
    requires i <= j < |os| == |p| && os[i].key == os[j].key && cap >= 0.0 && Growing(os) && Feasible(cap, os, p)
    ensures var key := os[i].key;
      Count(os, p, key, i, j + 1) as real <= cap + (Credit(os, key, j + 1) - Credit(os, key, i + 1))
  {
    Account(cap, os, p, i, j + 1);
    LevelStaysUp(cap, os, p, os[i].key, j + 1);
  }

  // ----- Closed form -----

  /** What the bucket would hold at request `n` had it been full when it admitted request `i`. */
  function SinceFull(cap: real, os: seq<Offering>, p: seq<bool>, i: nat, n: nat): real
    requires i < n < |os| == |p|
  {
    cap + (Credit(os, os[i].key, n + 1) - Credit(os, os[i].key, i + 1)) - Count(os, p, os[i].key, i, n) as real
  }

  predicate EarlierAdmission(os: seq<Offering>, p: seq<bool>, i: nat, n: nat)
    requires i < n < |os| == |p|
  {
    os[i].key == os[n].key && p[i]
  }

  /** `tokens` is the least of the capacity and all SinceFull of earlier admissions. */
  ghost predicate LeastSinceFull(cap: real, os: seq<Offering>, p: seq<bool>, n: nat, tokens: real)
    requires n < |os| == |p|
  {
    && tokens <= cap
    && (forall i :: 0 <= i < n && EarlierAdmission(os, p, i, n) ==> tokens <= SinceFull(cap, os, p, i, n))
    && (|| tokens == cap
        || exists i :: 0 <= i < n && EarlierAdmission(os, p, i, n) && tokens == SinceFull(cap, os, p, i, n))
  }

  lemma {:induction false} LevelIsReached(cap: real, os: seq<Offering>, p: seq<bool>, key: Key, n: nat)
    returns (i: nat)
    requires n <= |os| == |p| && Growing(os) && Level(cap, os, p, key, n) != cap
    ensures i < n && os[i].key == key && p[i]
    ensures Level(cap, os, p, key, n) + Count(os, p, key, i, n) as real
         == cap + (Credit(os, key, n) - Credit(os, key, i + 1))
    decreases n
  {
    if os[n - 1].key == key && Offer(cap, os, p, n - 1) == cap {
      i := n - 1;
      assert Count(os, p, key, n - 1, n - 1) == 0;
    } else {
      i := LevelIsReached(cap, os, p, key, n - 1);
    }
  }

  /** The min-plus closed form of lazy refill. */
  lemma {:induction false} ClosedForm(cap: real, os: seq<Offering>, p: seq<bool>, n: nat)
    requires n < |os| == |p| && Growing(os)
    ensures LeastSinceFull(cap, os, p, n, Offer(cap, os, p, n))
  {
    forall i | 0 <= i < n && EarlierAdmission(os, p, i, n)
      ensures Offer(cap, os, p, n) <= SinceFull(cap, os, p, i, n)
    {
      Account(cap, os, p, i, n);
    }
    if Offer(cap, os, p, n) != cap {
      LevelIsCapped(cap, os, p, os[n].key, n);
      var i := LevelIsReached(cap, os, p, os[n].key, n);
      assert EarlierAdmission(os, p, i, n) && Offer(cap, os, p, n) == SinceFull(cap, os, p, i, n);
    }
  }

  // ----- Optimality -----

  /** At no point has a feasible policy admitted more requests of a key than the greedy one. */
  lemma {:induction false} GreedyIsOptimal(
      cap: real, os: seq<Offering>, greedy: seq<bool>, p: seq<bool>, key: Key, n: nat)
    requires n <= |os| == |greedy| == |p| && Growing(os) && Greedy(cap, os, greedy) && Feasible(cap, os, p)
    ensures Count(os, p, key, 0, n) <= Count(os, greedy, key, 0, n)
    ensures Level(cap, os, p, key, n) + Count(os, p, key, 0, n) as real
         <= Level(cap, os, greedy, key, n) + Count(os, greedy, key, 0, n) as real
  {
    if n > 0 {
      GreedyIsOptimal(cap, os, greedy, p, key, n - 1);
    }
  }

  // ----- Idle buckets -----

  lemma {:induction false} CappedTwice(start: real, gain: real, more: real, cap: real)
    requires more >= 0.0
    ensures Min(Min(start + gain, cap) + more, cap) == Min(start + (gain + more), cap)
  {
  }

  /** A request's tokens that are not spent, and the credit after it, are what the next one finds. */
  lemma {:induction false} IdleLevel(cap: real, os: seq<Offering>, p: seq<bool>, i: nat, j: nat)
    requires i < j <= |os| == |p| && Growing(os) && Count(os, p, os[i].key, i, j) == 0
    ensures var key := os[i].key;
      Level(cap, os, p, key, j) == Min(Offer(cap, os, p, i) + (Credit(os, key, j) - Credit(os, key, i + 1)), cap)
    decreases j
  {
    if j > i + 1 {
      IdleLevel(cap, os, p, i, j - 1);
    }
  }

  lemma {:induction false} IdleOffer(cap: real, os: seq<Offering>, p: seq<bool>, i: nat, j: nat)
    requires i < j < |os| == |p| && os[i].key == os[j].key && Growing(os)
    requires Count(os, p, os[i].key, i, j) == 0
    ensures var key := os[i].key;
      Offer(cap, os, p, j) == Min(Offer(cap, os, p, i) + (Credit(os, key, j + 1) - Credit(os, key, i + 1)), cap)
  {
    IdleLevel(cap, os, p, i, j);
    CappedTwice(Offer(cap, os, p, i), Credit(os, os[i].key, j) - Credit(os, os[i].key, i + 1), os[j].gain, cap);
  }
}
