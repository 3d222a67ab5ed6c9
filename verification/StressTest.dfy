/**
 The liquidity stress simulation (scripts/liquidity-stress-test.ts, `simulate`), over real numbers.
 */
module StressTest {
  import opened Reals
  import opened Wrappers

  datatype Params = Params(tvl: real, pool: real, insurance: real, dailyRatePct: real)

  /**
   What a simulation depends on: the initial amounts, the redemptions demanded when so much is in
   circulation on a day, and the refill offered to the pool. The script has one profile for its
   parameters; everything below holds for any.
   */
  datatype Profile = Profile(
    tvl: real, pool: real, insurance: real, demand: (real, nat) -> real, refill: real -> real)

  /** What is pushed to `daily` at the end of a day. */
  datatype Day = Day(
    day: nat,
    demanded: real,
    fulfilled: real,
    poolBalance: real,
    insuranceBalance: real,
    slaBreach: bool,
    poolDrained: bool,
    cumulative: real,
    circulating: real)

  /** The variables of the loop. */
  datatype Sim = Sim(
    pool: real,
    insurance: real,
    circulating: real,
    cumulative: real,
    poolDrainDay: Option<nat>,
    insuranceDrainDay: Option<nat>,
    slaBreach: bool,
    breachDay: Option<nat>,
    maxDaily: real,
    daily: seq<Day>)

  function Pow(base: real, n: nat): real {
    if n == 0 then 1.0 else base * Pow(base, n - 1)
  }

  /** Panic on days 1 to 3, elevated to day 7, then decaying to a tenth. */
  function Multiplier(day: nat): real {
    if day <= 3 then 2.0
    else if day <= 7 then 1.5
    else Max(0.1, Pow(0.85, day - 8))
  }

  function Demand(dailyRatePct: real, circulating: real, day: nat): real {
    Min(circulating, circulating * (dailyRatePct / 100.0) * Multiplier(day))
  }

  /** Capped at 5% of the TVL a day. */
  function Refill(tvl: real, refillPct: real, circulating: real): real {
    Min(circulating * (refillPct / 100.0), tvl * 0.05)
  }

  function DemandAt(dailyRatePct: real): (real, nat) -> real {
    (circulating: real, day: nat) => Demand(dailyRatePct, circulating, day)
  }

  function RefillAt(tvl: real, refillPct: real): real -> real {
    (circulating: real) => Refill(tvl, refillPct, circulating)
  }

  /** The profile of the script. */
  function ProfileOf(p: Params, refillPct: real): Profile {
    Profile(p.tvl, p.pool, p.insurance, DemandAt(p.dailyRatePct), RefillAt(p.tvl, refillPct))
  }

  function Start(f: Profile): Sim {
    Sim(f.pool, f.insurance, f.tvl, 0.0, None, None, false, None, 0.0, [])
  }

  function FirstDay(before: Option<nat>, now: bool, day: nat): Option<nat> {
    if now && before.None? then Some(day) else before
  }

  /** The pool after the day's refill, which may take it to twice its initial size. */
  function Refilled(f: Profile, s: Sim): real {
    Min(s.pool + f.refill(s.circulating), f.pool * 2.0)
  }

  /** The pool, the insurance and the redemptions fulfilled once demand `d` has met them. */
  function PoolAfter(pool: real, d: real): real {
    if pool >= d then pool - d else 0.0
  }

  function InsuranceAfter(pool: real, insurance: real, d: real): real {
    if pool >= d then insurance
    else if insurance >= d - pool then insurance - (d - pool)
    else 0.0
  }

  predicate Breaches(pool: real, insurance: real, d: real) {
    pool < d && insurance < d - pool
  }

  function Fulfilled(pool: real, insurance: real, d: real): real {
    if Breaches(pool, insurance, d) then pool + insurance else d
  }

  /** The end of a day on which demand `d` meets `pool`. */
  function Settled(s: Sim, d: real, pool: real): Sim {
    var day := |s.daily| + 1;
    var fulfilled := Fulfilled(pool, s.insurance, d);
    var pool', insurance' := PoolAfter(pool, d), InsuranceAfter(pool, s.insurance, d);
    var breach := Breaches(pool, s.insurance, d);
    var circulating, cumulative := s.circulating - fulfilled, s.cumulative + fulfilled;
    Sim(pool', insurance', circulating, cumulative,
        FirstDay(s.poolDrainDay, pool' <= 0.0, day),
        FirstDay(s.insuranceDrainDay, insurance' <= 0.0, day),
        s.slaBreach || breach,
        FirstDay(s.breachDay, breach, day),
        Max(s.maxDaily, d),
        s.daily + [Day(day, d, fulfilled, Max(0.0, pool'), Max(0.0, insurance'),
                       (s.slaBreach || breach) && fulfilled < d, pool' <= 0.0, cumulative, Max(0.0, circulating))])
  }

  function DayAfter(f: Profile, s: Sim): Sim {
    Settled(s, f.demand(s.circulating, |s.daily| + 1), Refilled(f, s))
  }

  /** All tokens are redeemed: the loop ends early. */
  predicate Over(s: Sim) {
    s.daily != [] && s.circulating <= 0.0
  }

  /** The simulation after at most `n` days. */
  function Run(f: Profile, n: nat): Sim {
    if n == 0 then Start(f)
    else
      var s := Run(f, n - 1);
      if Over(s) then s else DayAfter(f, s)
  }

  predicate Survived(s: Sim) {
    s.poolDrainDay.None? && s.insuranceDrainDay.None? && !s.slaBreach
  }

  lemma {:induction false} OverStays(f: Profile, n: nat, m: nat)
    requires n <= m && Over(Run(f, n))
    ensures Run(f, m) == Run(f, n)
    decreases m
  {
    if n < m { OverStays(f, n, m - 1); }
  }

  lemma {:induction false} DaysSoFar(f: Profile, n: nat)
    ensures |Run(f, n).daily| <= n
    ensures Over(Run(f, n)) || |Run(f, n).daily| == n
  {
    if n > 0 { DaysSoFar(f, n - 1); }
  }

  /** Redemptions are paid from the pool first, then from the insurance fund. */
  method Redeem(pool: real, insurance: real, demanded: real)
    returns (pool': real, insurance': real, fulfilled: real, breach: bool)
    ensures pool' == PoolAfter(pool, demanded) && insurance' == InsuranceAfter(pool, insurance, demanded)
    ensures fulfilled == Fulfilled(pool, insurance, demanded) && breach == Breaches(pool, insurance, demanded)
  {
    pool', insurance', breach := pool, insurance, false;
    if pool >= demanded {
      fulfilled := demanded;
      pool' := pool - demanded;
    } else {
      fulfilled := pool;
      var gap := demanded - pool;
      pool' := 0.0;
      if insurance >= gap {
        insurance' := insurance - gap;
        fulfilled := demanded;
      } else {
        fulfilled := fulfilled + insurance;
        insurance' := 0.0;
        breach := true;
      }
    }
  }

  /** The script's run; its parameters fix the profile. */
  method Simulate(p: Params, days: int, refillPct: real) returns (s: Sim, survived: bool)
    ensures s == Run(ProfileOf(p, refillPct), if days >= 0 then days else 0)
    ensures survived == Survived(s)
  {
    s, survived := SimulateProfile(ProfileOf(p, refillPct), days);
  }

  /** A run that is not over goes on with its next day. */
  lemma {:induction false} NextDay(f: Profile, day: nat)
    requires 1 <= day && !Over(Run(f, day - 1))
    ensures |Run(f, day - 1).daily| == day - 1
    ensures Run(f, day) == DayAfter(f, Run(f, day - 1))
    ensures Over(Run(f, day)) <==> Run(f, day).circulating <= 0.0
  {
    DaysSoFar(f, day - 1);
  }

  method SimulateProfile(f: Profile, days: int) returns (s: Sim, survived: bool)
    ensures s == Run(f, if days >= 0 then days else 0)
    ensures survived == Survived(s)
  {
    s := Start(f);
    var day: nat := 1;
    while day <= days
      invariant 1 <= day && (days >= 0 ==> day <= days + 1) && (days < 0 ==> day == 1)
      invariant s == Run(f, day - 1) && !Over(s)
    {
      NextDay(f, day);
      s := SimulateDay(f, s, day);
      if s.circulating <= 0.0 {
        OverStays(f, day, days);
        break;
      }
      day := day + 1;
    }
    survived := s.poolDrainDay.None? && s.insuranceDrainDay.None? && !s.slaBreach;
  }

  /** The loop body: the day's demand meets the refilled pool. */
  method SimulateDay(f: Profile, s: Sim, day: nat) returns (s': Sim)
    requires day == |s.daily| + 1
    ensures s' == DayAfter(f, s)
  {
    var demanded := f.demand(s.circulating, day);
    var refilled := Min(s.pool + f.refill(s.circulating), f.pool * 2.0);
    s' := EndOfDay(s, day, demanded, refilled);
  }

  /** The rest of the loop body, from the refilled pool on. */
  method EndOfDay(s: Sim, day: nat, demanded: real, refilled: real) returns (s': Sim)
    requires day == |s.daily| + 1
    ensures s' == Settled(s, demanded, refilled)
  {
    var pool, insurance, fulfilled, breach := Redeem(refilled, s.insurance, demanded);
    var slaBreach := s.slaBreach || breach;
    var breachDay := if breach && s.breachDay.None? then Some(day) else s.breachDay;
    var circulating := s.circulating - fulfilled;
    var cumulative := s.cumulative + fulfilled;
    var poolDrainDay := if pool <= 0.0 && s.poolDrainDay.None? then Some(day) else s.poolDrainDay;
    var insuranceDrainDay := if insurance <= 0.0 && s.insuranceDrainDay.None? then Some(day) else s.insuranceDrainDay;
    var entry := Day(day, demanded, fulfilled, Max(0.0, pool), Max(0.0, insurance), slaBreach && fulfilled < demanded,
                     pool <= 0.0, cumulative, Max(0.0, circulating));
    s' := Sim(pool, insurance, circulating, cumulative, poolDrainDay, insuranceDrainDay, slaBreach, breachDay,
              Max(s.maxDaily, demanded), s.daily + [entry]);
  }

  // ----- The ledger -----

  /** Demand is between nothing and everything in circulation, and a refill adds to the pool. */
  ghost predicate Sensible(f: Profile) {
    && f.tvl >= 0.0 && f.pool >= 0.0 && f.insurance >= 0.0
    && (forall c: real, day: nat :: c >= 0.0 ==> 0.0 <= f.demand(c, day) <= c)
    && (forall c: real :: c >= 0.0 ==> f.refill(c) >= 0.0)
  }

  lemma {:induction false} ProductIsNonnegative(a: real, b: real)
    requires a >= 0.0 && b >= 0.0
    ensures a * b >= 0.0
  {
  }

  lemma {:induction false} DemandIsInRange(dailyRatePct: real, circulating: real, day: nat)
    requires circulating >= 0.0 && dailyRatePct >= 0.0
    ensures 0.0 <= Demand(dailyRatePct, circulating, day) <= circulating
  {
    var share := circulating * (dailyRatePct / 100.0);
    ProductIsNonnegative(circulating, dailyRatePct / 100.0);
    ProductIsNonnegative(share, Multiplier(day));
  }

  lemma {:induction false} RefillIsNonnegative(tvl: real, refillPct: real, circulating: real)
    requires circulating >= 0.0 && tvl >= 0.0 && refillPct >= 0.0
    ensures Refill(tvl, refillPct, circulating) >= 0.0
  {
    ProductIsNonnegative(circulating, refillPct / 100.0);
  }

  lemma {:induction false} PowersDecay(base: real, m: nat, n: nat)
    requires 0.0 <= base <= 1.0 && m <= n
    ensures 0.0 <= Pow(base, n) <= Pow(base, m)
    decreases n
  {
    if m < n {
      PowersDecay(base, m, n - 1);
      ShareOf(base, Pow(base, n - 1));
    } else if n > 0 {
      PowersDecay(base, m - 1, n - 1);
      ProductIsNonnegative(base, Pow(base, n - 1));
    }
  }

  lemma {:induction false} ShareOf(share: real, whole: real)
    requires 0.0 <= share <= 1.0 && whole >= 0.0
    ensures 0.0 <= share * whole <= whole
  {
    ProductIsNonnegative(share, whole);
    ProductIsNonnegative(1.0 - share, whole);
  }

  /**
   Capped at everything in circulation, demand is the base rate times 2 on days 1 to 3, 1.5 to day 7, and 1 on day 8;
   from then on it follows the multiplier.
   */
  lemma {:induction false} DemandSchedule(dailyRatePct: real, circulating: real, day: nat)
    requires day >= 1
    ensures var base := circulating * (dailyRatePct / 100.0);
      Demand(dailyRatePct, circulating, day)
      == Min(circulating, if day <= 3 then 2.0 * base else if day <= 7 then 1.5 * base
                          else if day == 8 then base else base * Multiplier(day))
  {
    assert Pow(0.85, 0) == 1.0;
  }

  /** After day 8 the multiplier falls by 15% a day until it has reached a tenth. */
  lemma {:induction false} MultiplierDecays(day: nat)
    requires day >= 8
    ensures Multiplier(day + 1) == Max(0.1, 0.85 * Multiplier(day))
    ensures Multiplier(8) == 1.0
  {
    assert Pow(0.85, 0) == 1.0;
    assert Pow(0.85, day + 1 - 8) == 0.85 * Pow(0.85, day - 8);
  }

  /** A refill is its share of what is circulating, but no more than 5% of the TVL; up to 5% the share is never cut. */
  lemma {:induction false} RefillSchedule(tvl: real, refillPct: real, circulating: real)
    requires 0.0 <= circulating <= tvl && refillPct >= 0.0
    ensures Refill(tvl, refillPct, circulating) <= 0.05 * tvl
    ensures Refill(tvl, refillPct, circulating) == circulating * (refillPct / 100.0)
       || (Refill(tvl, refillPct, circulating) == 0.05 * tvl < circulating * (refillPct / 100.0))
    ensures refillPct <= 5.0 ==> Refill(tvl, refillPct, circulating) == circulating * (refillPct / 100.0)
  {
    var share := refillPct / 100.0;
    if refillPct <= 5.0 {
      ProductIsNonnegative(circulating, 0.05 - share);
      assert circulating * share <= circulating * 0.05;
    }
  }

  /** The panic wears off: with as much in circulation, a later day never sees a greater demand. */
  lemma {:induction false} PanicWearsOff(dailyRatePct: real, circulating: real, day: nat, later: nat)
    requires circulating >= 0.0 && dailyRatePct >= 0.0 && day <= later
    ensures 0.1 <= Multiplier(later) <= Multiplier(day) <= 2.0
    ensures Demand(dailyRatePct, circulating, later) <= Demand(dailyRatePct, circulating, day)
  {
    if later > 7 {
      PowersDecay(0.85, if day > 7 then day - 8 else 0, later - 8);
      if day > 7 { PowersDecay(0.85, 0, day - 8); }
    }
    var share := circulating * (dailyRatePct / 100.0);
    ProductIsNonnegative(circulating, dailyRatePct / 100.0);
    ProductIsNonnegative(share, Multiplier(day) - Multiplier(later));
  }

  /** The script's profile is sensible for amounts and rates that are not negative. */
  lemma {:induction false} ScriptIsSensible(p: Params, refillPct: real)
    requires p.tvl >= 0.0 && p.pool >= 0.0 && p.insurance >= 0.0 && p.dailyRatePct >= 0.0 && refillPct >= 0.0
    ensures Sensible(ProfileOf(p, refillPct))
    ensures forall c: real, day: nat :: ProfileOf(p, refillPct).demand(c, day) == Demand(p.dailyRatePct, c, day)
    ensures forall c: real :: ProfileOf(p, refillPct).refill(c) == Refill(p.tvl, refillPct, c)
  {
    var f := ProfileOf(p, refillPct);
    forall c: real, day: nat | c >= 0.0 ensures 0.0 <= f.demand(c, day) <= c {
      DemandIsInRange(p.dailyRatePct, c, day);
      assert f.demand(c, day) == Demand(p.dailyRatePct, c, day);
    }
    forall c: real | c >= 0.0 ensures f.refill(c) >= 0.0 {
      RefillIsNonnegative(p.tvl, refillPct, c);
      assert f.refill(c) == Refill(p.tvl, refillPct, c);
    }
  }

  /** What reaches the pool of the day's refill: no more than its room up to twice its initial size. */
  function CreditedOn(f: Profile, s: Sim): real {
    Min(f.refill(s.circulating), 2.0 * f.pool - s.pool)
  }

  /** The refills that reached the pool in the first `n` days. */
  function Credited(f: Profile, n: nat): real {
    if n == 0 then 0.0
    else
      var s := Run(f, n - 1);
      Credited(f, n - 1) + if Over(s) then 0.0 else CreditedOn(f, s)
  }

  /**
   The books of a simulation: tokens are conserved, money is conserved up to the refills, and both funds stay
   within their limits.
   */
  predicate BooksBalance(f: Profile, s: Sim, credited: real) {
    && s.circulating + s.cumulative == f.tvl
    && s.pool + s.insurance + s.cumulative == f.pool + f.insurance + credited
    && 0.0 <= s.pool <= f.pool * 2.0
    && 0.0 <= s.insurance <= f.insurance
    && s.circulating >= 0.0 && credited >= 0.0
  }

  /** One day's entry against the state before it. */
  predicate EntryIsFair(f: Profile, s: Sim, entry: Day) {
    var pool := s.pool + CreditedOn(f, s);
    && entry.day == |s.daily| + 1 && entry.demanded == f.demand(s.circulating, entry.day)
    && entry.fulfilled == Min(entry.demanded, pool + s.insurance)
    && 0.0 <= entry.fulfilled <= entry.demanded <= s.circulating
    && (entry.slaBreach <==> entry.fulfilled < entry.demanded)
    && entry.insuranceBalance <= s.insurance
    && (entry.insuranceBalance < s.insurance ==> entry.poolBalance == 0.0)
    && (entry.poolDrained <==> entry.poolBalance == 0.0)
    && entry.cumulative == s.cumulative + entry.fulfilled
    && entry.circulating == s.circulating - entry.fulfilled
    && entry.poolBalance + entry.insuranceBalance + entry.fulfilled == pool + s.insurance
  }

  lemma {:induction false} DayKeepsBooks(f: Profile, s: Sim, credited: real)
    requires Sensible(f) && BooksBalance(f, s, credited)
    ensures BooksBalance(f, DayAfter(f, s), credited + CreditedOn(f, s))
    ensures EntryIsFair(f, s, DayAfter(f, s).daily[|s.daily|])
  {
  }

  lemma {:induction false} Ledger(f: Profile, n: nat)
    requires Sensible(f)
    ensures BooksBalance(f, Run(f, n), Credited(f, n))
  {
    if n > 0 {
      Ledger(f, n - 1);
      DayKeepsBooks(f, Run(f, n - 1), Credited(f, n - 1));
    }
  }

  /** The books of the script, in its parameters. */
  lemma {:induction false} ScriptLedger(p: Params, refillPct: real, n: nat)
    requires p.tvl >= 0.0 && p.pool >= 0.0 && p.insurance >= 0.0 && p.dailyRatePct >= 0.0 && refillPct >= 0.0
    ensures var s, credited := Run(ProfileOf(p, refillPct), n), Credited(ProfileOf(p, refillPct), n);
      && s.circulating + s.cumulative == p.tvl
      && s.pool + s.insurance + s.cumulative == p.pool + p.insurance + credited
      && 0.0 <= s.pool <= 2.0 * p.pool && 0.0 <= s.insurance <= p.insurance && s.circulating >= 0.0
  {
    ScriptIsSensible(p, refillPct);
    Ledger(ProfileOf(p, refillPct), n);
  }

  lemma {:induction false} DayIsAppended(f: Profile, s: Sim)
    ensures |DayAfter(f, s).daily| == |s.daily| + 1
    ensures DayAfter(f, s).daily[..|s.daily|] == s.daily
    ensures DayAfter(f, s).daily[|s.daily|].day == |s.daily| + 1
  {
  }

  lemma {:induction false} EarlierEntriesStay(f: Profile, n: nat, k: nat)
    requires n > 0 && k < |Run(f, n - 1).daily|
    ensures k < |Run(f, n).daily| && Run(f, n).daily[k] == Run(f, n - 1).daily[k]
  {
    var s := Run(f, n - 1);
    if !Over(s) { DayIsAppended(f, s); }
  }

  lemma {:induction false} LastEntryIsNew(f: Profile, n: nat, k: nat)
    requires n > 0 && |Run(f, n - 1).daily| <= k < |Run(f, n).daily|
    ensures k == n - 1 && |Run(f, k).daily| == k
    ensures Run(f, n).daily[k] == DayAfter(f, Run(f, k)).daily[k] && Run(f, n).daily[k].day == k + 1
  {
    NextDay(f, n);
    DayIsAppended(f, Run(f, n - 1));
  }

  lemma {:induction false} LastEntryIsFair(f: Profile, k: nat, entry: Day)
    requires Sensible(f) && |Run(f, k).daily| == k && entry == DayAfter(f, Run(f, k)).daily[k]
    ensures EntryIsFair(f, Run(f, k), entry)
  {
    Ledger(f, k);
    DayKeepsBooks(f, Run(f, k), Credited(f, k));
  }

  /** Entry `k` of a run is day k + 1, simulated fairly from the run of `k` days. */
  lemma {:induction false} EntryOf(f: Profile, n: nat, k: nat)
    requires Sensible(f) && k < |Run(f, n).daily|
    ensures Run(f, n).daily[k].day == k + 1
    ensures EntryIsFair(f, Run(f, k), Run(f, n).daily[k])
    decreases n
  {
    if k < |Run(f, n - 1).daily| {
      EntryOf(f, n - 1, k);
      EarlierEntriesStay(f, n, k);
    } else {
      LastEntryIsNew(f, n, k);
      LastEntryIsFair(f, k, Run(f, n).daily[k]);
    }
  }

  // ----- What the refills are good for -----

  /** A pool that has money does not shrink over a day exactly if the day's demand is within the refill credited. */
  lemma {:induction false} DayKeepsPool(f: Profile, s: Sim, credited: real)
    requires Sensible(f) && BooksBalance(f, s, credited) && s.pool > 0.0
    ensures DayAfter(f, s).pool >= s.pool
       <==> f.demand(s.circulating, |s.daily| + 1) <= Min(f.refill(s.circulating), 2.0 * f.pool - s.pool)
  {
  }

  /** No day asks for more than its refill, nor for more than the initial pool. */
  ghost predicate RefillsCover(f: Profile) {
    forall c: real, day: nat :: 0.0 <= c ==> f.demand(c, day) <= f.refill(c) && f.demand(c, day) <= f.pool
  }

  /** Then the pool never falls below its initial size, the insurance is never touched, and no day breaches. */
  lemma {:induction false} RefillsKeepThePool(f: Profile, n: nat)
    requires Sensible(f) && RefillsCover(f)
    ensures Run(f, n).pool >= f.pool && Run(f, n).insurance == f.insurance && !Run(f, n).slaBreach
  {
    if n > 0 {
      RefillsKeepThePool(f, n - 1);
      Ledger(f, n - 1);
    }
  }

  /** A refill that covers the demand is not enough: what is above twice the initial pool is not credited. */
  lemma {:induction false} PoolCanFall(f: Profile)
    requires Sensible(f) && f.pool > 0.0 && f.demand(f.tvl, 1) > f.pool && f.refill(f.tvl) >= f.demand(f.tvl, 1)
    ensures Run(f, 1).pool < f.pool
  {
    assert Run(f, 1) == DayAfter(f, Start(f));
  }

  /** An issuer whose pool and insurance cover all tokens never breaches its SLA. */
  lemma {:induction false} FullReserveNeverBreaches(f: Profile, n: nat)
    requires Sensible(f) && f.pool + f.insurance >= f.tvl
    ensures !Run(f, n).slaBreach
  {
    if n > 0 {
      FullReserveNeverBreaches(f, n - 1);
      Ledger(f, n - 1);
    }
  }

  // ----- The days that are recorded -----

  /** `day` is the first of the recorded days with the property, or none if there is none. */
  predicate IsFirst(day: Option<nat>, daily: seq<Day>, p: Day -> bool) {
    match day
    case None => forall k :: 0 <= k < |daily| ==> !p(daily[k])
    case Some(d) => 1 <= d <= |daily| && p(daily[d - 1]) && forall k :: 0 <= k < d - 1 ==> !p(daily[k])
  }

  lemma {:induction false} FirstExtends(day: Option<nat>, daily: seq<Day>, entry: Day, p: Day -> bool)
    requires IsFirst(day, daily, p)
    ensures IsFirst(FirstDay(day, p(entry), |daily| + 1), daily + [entry], p)
  {
  }

  /** `m` is the greatest demand of a recorded day. */
  ghost predicate IsPeak(m: real, daily: seq<Day>) {
    && m >= 0.0
    && (forall k :: 0 <= k < |daily| ==> daily[k].demanded <= m)
    && (m == 0.0 || exists k :: 0 <= k < |daily| && daily[k].demanded == m)
  }

  lemma {:induction false} PeakExtends(m: real, daily: seq<Day>, entry: Day)
    requires IsPeak(m, daily)
    ensures IsPeak(Max(m, entry.demanded), daily + [entry])
  {
    var all := daily + [entry];
    assert all[|daily|] == entry;
    if m >= entry.demanded && m != 0.0 {
      var k :| 0 <= k < |daily| && daily[k].demanded == m;
      assert all[k] == daily[k];
    }
  }

  const POOL_EMPTY: Day -> bool := (d: Day) => d.poolBalance <= 0.0
  const INSURANCE_EMPTY: Day -> bool := (d: Day) => d.insuranceBalance <= 0.0
  const SHORT: Day -> bool := (d: Day) => d.fulfilled < d.demanded

  ghost predicate DaysAreRecorded(s: Sim) {
    && IsFirst(s.poolDrainDay, s.daily, POOL_EMPTY)
    && IsFirst(s.insuranceDrainDay, s.daily, INSURANCE_EMPTY)
    && IsFirst(s.breachDay, s.daily, SHORT)
    && (s.slaBreach <==> s.breachDay.Some?)
    && IsPeak(s.maxDaily, s.daily)
  }

  lemma {:induction false} DayIsRecorded(s: Sim, d: real, pool: real, entry: Day)
    requires DaysAreRecorded(s) && entry == Settled(s, d, pool).daily[|s.daily|]
    ensures DaysAreRecorded(Settled(s, d, pool))
  {
    var s' := Settled(s, d, pool);
    assert s'.daily == s.daily + [entry];
    assert s'.poolDrainDay == FirstDay(s.poolDrainDay, POOL_EMPTY(entry), |s.daily| + 1);
    assert s'.insuranceDrainDay == FirstDay(s.insuranceDrainDay, INSURANCE_EMPTY(entry), |s.daily| + 1);
    assert s'.breachDay == FirstDay(s.breachDay, SHORT(entry), |s.daily| + 1);
    FirstExtends(s.poolDrainDay, s.daily, entry, POOL_EMPTY);
    FirstExtends(s.insuranceDrainDay, s.daily, entry, INSURANCE_EMPTY);
    FirstExtends(s.breachDay, s.daily, entry, SHORT);
    PeakExtends(s.maxDaily, s.daily, entry);
  }

  lemma {:induction false} StartIsRecorded(f: Profile)
    ensures DaysAreRecorded(Start(f))
  {
  }

  lemma {:induction false} NextIsRecorded(f: Profile, s: Sim)
    requires DaysAreRecorded(s)
    ensures DaysAreRecorded(DayAfter(f, s))
  {
    var d, pool := f.demand(s.circulating, |s.daily| + 1), Refilled(f, s);
    DayIsRecorded(s, d, pool, Settled(s, d, pool).daily[|s.daily|]);
  }

  /**
   The drain days and the breach day are the first recorded days on which the pool is empty, the insurance is empty, and
   demand is not met in full; the greatest demand is that of the recorded days.
   */
  lemma {:induction false} RecordedDays(f: Profile, n: nat)
    ensures DaysAreRecorded(Run(f, n))
  {
    if n == 0 {
      StartIsRecorded(f);
    } else {
      RecordedDays(f, n - 1);
      NextIsRecorded(f, Run(f, n - 1));
    }
  }

  /** Something was in circulation after every recorded day but the last, which records what is now. */
  predicate WentOnWhileCirculating(s: Sim) {
    && (forall k :: 0 <= k < |s.daily| - 1 ==> s.daily[k].circulating > 0.0)
    && (s.daily != [] ==> s.daily[|s.daily| - 1].circulating == Max(0.0, s.circulating))
  }

  lemma {:induction false} GoesOnWhileCirculating(s: Sim, d: real, pool: real)
    requires WentOnWhileCirculating(s) && !Over(s)
    ensures WentOnWhileCirculating(Settled(s, d, pool))
  {
  }

  /** The run stops early exactly when everything is redeemed. */
  lemma {:induction false} StopsWhenRedeemed(f: Profile, n: nat)
    ensures WentOnWhileCirculating(Run(f, n)) && |Run(f, n).daily| <= n
    ensures |Run(f, n).daily| < n ==> Run(f, n).daily != [] && Run(f, n).daily[|Run(f, n).daily| - 1].circulating == 0.0
  {
    DaysSoFar(f, n);
    if n > 0 {
      var s := Run(f, n - 1);
      StopsWhenRedeemed(f, n - 1);
      if !Over(s) { GoesOnWhileCirculating(s, f.demand(s.circulating, |s.daily| + 1), Refilled(f, s)); }
    }
  }

  // ----- The verdict -----

  predicate GoodDay(entry: Day) {
    entry.poolBalance > 0.0 && entry.insuranceBalance > 0.0 && entry.fulfilled == entry.demanded
  }

  lemma {:induction false} SettledSurvives(s: Sim, d: real, pool: real)
    ensures Settled(s, d, pool).daily == s.daily + [Settled(s, d, pool).daily[|s.daily|]]
    ensures Survived(Settled(s, d, pool)) <==> Survived(s) && GoodDay(Settled(s, d, pool).daily[|s.daily|])
  {
  }

  predicate AllGood(daily: seq<Day>) {
    forall k :: 0 <= k < |daily| ==> GoodDay(daily[k])
  }

  lemma {:induction false} AllGoodExtends(daily: seq<Day>, entry: Day)
    ensures AllGood(daily + [entry]) <==> AllGood(daily) && GoodDay(entry)
  {
    if AllGood(daily + [entry]) {
      forall k | 0 <= k < |daily| ensures GoodDay(daily[k]) { assert (daily + [entry])[k] == daily[k]; }
      assert (daily + [entry])[|daily|] == entry;
    }
  }

  /** The run survives exactly if each recorded day ends with money in both funds and demand fully met. */
  lemma {:induction false} SurvivalIsGoodDays(f: Profile, n: nat)
    ensures Survived(Run(f, n)) <==> AllGood(Run(f, n).daily)
  {
    if n > 0 {
      SurvivalIsGoodDays(f, n - 1);
      var s := Run(f, n - 1);
      if !Over(s) {
        var d, pool := f.demand(s.circulating, |s.daily| + 1), Refilled(f, s);
        SettledSurvives(s, d, pool);
        AllGoodExtends(s.daily, Settled(s, d, pool).daily[|s.daily|]);
        assert Run(f, n) == Settled(s, d, pool);
      }
    }
  }

  // ----- More money never hurts -----

  /** The two runs have seen the same tokens, and the richer one has at least as much in each fund. */
  predicate Coupled(poor: Sim, rich: Sim) {
    && rich.circulating == poor.circulating && |rich.daily| == |poor.daily|
    && rich.pool >= poor.pool && rich.insurance >= poor.insurance
    && !poor.slaBreach && !rich.slaBreach && poor.breachDay.None? && rich.breachDay.None?
    && (poor.poolDrainDay.None? ==> rich.poolDrainDay.None?)
    && (poor.insuranceDrainDay.None? ==> rich.insuranceDrainDay.None?)
  }

  /** The same demand and refills, and at least as much in each fund. */
  predicate Richer(f: Profile, g: Profile) {
    && g.tvl == f.tvl && g.pool >= f.pool && g.insurance >= f.insurance
  }

  ghost predicate SameFlows(f: Profile, g: Profile) {
    && (forall c: real, day: nat :: f.demand(c, day) == g.demand(c, day))
    && (forall c: real :: f.refill(c) == g.refill(c))
  }

  lemma {:induction false} DayKeepsCoupling(f: Profile, g: Profile, poor: Sim, rich: Sim)
    requires Richer(f, g) && SameFlows(f, g) && Coupled(poor, rich) && !DayAfter(f, poor).slaBreach
    ensures Coupled(DayAfter(f, poor), DayAfter(g, rich))
  {
  }

  lemma {:induction false} StaysCoupled(f: Profile, g: Profile, n: nat)
    requires Richer(f, g) && SameFlows(f, g) && !Run(f, n).slaBreach
    ensures Coupled(Run(f, n), Run(g, n))
  {
    if n > 0 {
      StaysCoupled(f, g, n - 1);
      if !Over(Run(f, n - 1)) { DayKeepsCoupling(f, g, Run(f, n - 1), Run(g, n - 1)); }
    }
  }

  /** The first breach sets the day, and nothing changes it later. */
  lemma {:induction false} DayBreaches(f: Profile, s: Sim)
    requires s.slaBreach <==> s.breachDay.Some?
    ensures var s' := DayAfter(f, s);
      && (s'.slaBreach <==> s'.breachDay.Some?)
      && (s.slaBreach ==> s'.slaBreach && s'.breachDay == s.breachDay)
      && (s'.slaBreach && !s.slaBreach ==> s'.breachDay == Some(|s.daily| + 1))
  {
  }

  predicate BreachesOn(f: Profile, day: nat) {
    day >= 1 && Run(f, day).slaBreach && !Run(f, day - 1).slaBreach
  }

  lemma {:induction false} BreachDayIsSet(f: Profile, n: nat)
    ensures Run(f, n).slaBreach <==> Run(f, n).breachDay.Some?
  {
    if n > 0 {
      BreachDayIsSet(f, n - 1);
      if !Over(Run(f, n - 1)) { DayBreaches(f, Run(f, n - 1)); }
    }
  }

  lemma {:induction false} BreachStep(f: Profile, n: nat)
    requires n >= 1 && Run(f, n).slaBreach
    ensures Run(f, n).breachDay == if Run(f, n - 1).slaBreach then Run(f, n - 1).breachDay else Some(n)
  {
    BreachDayIsSet(f, n - 1);
    if !Over(Run(f, n - 1)) {
      NextDay(f, n);
      DayBreaches(f, Run(f, n - 1));
    }
  }

  lemma {:induction false} BreachDayIsReached(f: Profile, n: nat)
    requires Run(f, n).slaBreach
    ensures Run(f, n).breachDay.Some?
    ensures Run(f, n).breachDay.value <= n && BreachesOn(f, Run(f, n).breachDay.value)
  {
    if n > 0 {
      BreachStep(f, n);
      if Run(f, n - 1).slaBreach { BreachDayIsReached(f, n - 1); } else { assert BreachesOn(f, n); }
    }
  }

  lemma {:induction false} BreachLasts(f: Profile, n: nat, m: nat)
    requires n <= m && Run(f, n).slaBreach
    ensures Run(f, m).slaBreach && Run(f, m).breachDay == Run(f, n).breachDay
    decreases m
  {
    if n < m {
      BreachLasts(f, n, m - 1);
      BreachStays(f, m);
    }
  }

  lemma {:induction false} BreachStays(f: Profile, n: nat)
    requires n >= 1 && Run(f, n - 1).slaBreach
    ensures Run(f, n).slaBreach && Run(f, n).breachDay == Run(f, n - 1).breachDay
  {
    BreachDayIsSet(f, n - 1);
    if !Over(Run(f, n - 1)) { DayBreaches(f, Run(f, n - 1)); }
  }

  /** More money, with the same demand and refills, never breaches where less did not, nor earlier. */
  lemma {:induction false} MoreMoneyBreachesLater(f: Profile, g: Profile, n: nat)
    requires Richer(f, g) && SameFlows(f, g) && Run(g, n).slaBreach
    ensures Run(f, n).slaBreach && Run(g, n).breachDay.Some? && Run(f, n).breachDay.Some?
    ensures Run(f, n).breachDay.value <= Run(g, n).breachDay.value
  {
    BreachDayIsReached(g, n);
    var d := Run(g, n).breachDay.value;
    assert Run(f, d).slaBreach by {
      if !Run(f, d).slaBreach { StaysCoupled(f, g, d); }
    }
    BreachDayIsReached(f, d);
    BreachLasts(f, d, n);
  }

  /**
   Raising the script's initial pool or insurance, for the same TVL and rate, never introduces an SLA breach
   and never makes the first breach day earlier.
   */
  lemma {:induction false} RaisingFundsIsMonotone(p: Params, q: Params, refillPct: real, n: nat)
    requires q.tvl == p.tvl && q.dailyRatePct == p.dailyRatePct && q.pool >= p.pool && q.insurance >= p.insurance
    ensures var poor, rich := Run(ProfileOf(p, refillPct), n), Run(ProfileOf(q, refillPct), n);
      rich.slaBreach ==> poor.slaBreach && poor.breachDay.Some? && rich.breachDay.Some?
                         && poor.breachDay.value <= rich.breachDay.value
  {
    SameScriptFlows(p, q, refillPct);
    if Run(ProfileOf(q, refillPct), n).slaBreach {
      MoreMoneyBreachesLater(ProfileOf(p, refillPct), ProfileOf(q, refillPct), n);
    }
  }

  /** More money, with the same demand and refills, keeps the verdict of a run that survives. */
  lemma {:induction false} MoreMoneySurvives(f: Profile, g: Profile, n: nat)
    requires Richer(f, g) && SameFlows(f, g) && Survived(Run(f, n))
    ensures Survived(Run(g, n))
  {
    StaysCoupled(f, g, n);
  }

  /** So does raising the script's initial pool or insurance, for the same TVL and rate. */
  lemma {:induction false} RaisingFundsSurvives(p: Params, q: Params, refillPct: real, n: nat)
    requires q.tvl == p.tvl && q.dailyRatePct == p.dailyRatePct && q.pool >= p.pool && q.insurance >= p.insurance
    requires Survived(Run(ProfileOf(p, refillPct), n))
    ensures Survived(Run(ProfileOf(q, refillPct), n))
  {
    SameScriptFlows(p, q, refillPct);
    MoreMoneySurvives(ProfileOf(p, refillPct), ProfileOf(q, refillPct), n);
  }

  lemma {:induction false} SameScriptFlows(p: Params, q: Params, refillPct: real)
    requires q.tvl == p.tvl && q.dailyRatePct == p.dailyRatePct
    ensures SameFlows(ProfileOf(p, refillPct), ProfileOf(q, refillPct))
  {
  }
}
