/** The draw calculator of the bad-debt backstop (sdk/src/BadDebtBackstopModule.ts), over unbounded integers. */
module Backstop {
  import opened Wrappers

  function Min(a: int, b: int): int {
    if a <= b then a else b
  }

  /** Division of big integers, which truncates toward zero. */
  function Quotient(a: int, b: int): int
    requires b > 0
  {
    if a >= 0 then a / b else -(-a / b)
  }

  /** A cap of 0 basis points means no cap, and so does a negative one. */
  function ComputeMaxDraw(netSupply: int, maxBackstopBps: int, shortfall: int, fund: Option<int>): int {
    var beforeFund :=
      if maxBackstopBps == 0 then shortfall
      else if maxBackstopBps > 0 then
        if Quotient(netSupply * maxBackstopBps, 10_000) < shortfall then Quotient(netSupply * maxBackstopBps, 10_000)
        else shortfall
      else shortfall;
    match fund
    case Some(balance) => if beforeFund < balance then beforeFund else balance
    case None => beforeFund
  }

  function ComputeRemainingShortfall(shortfall: int, draw: int): int {
    if shortfall > draw then shortfall - draw else 0
  }

  /** What the cap leaves of a shortfall. */
  function Capped(netSupply: int, bps: int, shortfall: int): int {
    if bps <= 0 then shortfall else Min(Quotient(netSupply * bps, 10_000), shortfall)
  }

  /** Whatever the numbers, no draw exceeds its shortfall, so draw and remainder add up to it. */
  lemma {:induction false} DrawIsConserved(netSupply: int, bps: int, shortfall: int, fund: Option<int>)
    ensures var draw := ComputeMaxDraw(netSupply, bps, shortfall, fund);
      && draw + ComputeRemainingShortfall(shortfall, draw) == shortfall
      && draw == (if fund.Some? then Min(Capped(netSupply, bps, shortfall), fund.value)
                  else Capped(netSupply, bps, shortfall))
      && (fund.Some? ==> draw <= fund.value)
  {
  }

  /** The cap is the share of the supply in whole units, rounded toward zero. */
  lemma {:induction false} CapIsRounded(netSupply: int, bps: int)
    ensures var share, cap := netSupply * bps, Quotient(netSupply * bps, 10_000);
      && (share >= 0 ==> cap * 10_000 <= share < (cap + 1) * 10_000)
      && (share < 0 ==> (cap - 1) * 10_000 < share <= cap * 10_000)
  {
  }

  /** A draw is allowed that exceeds neither the shortfall, nor the fund if there is one, nor a cap if there is one. */
  predicate MayDraw(netSupply: int, bps: int, shortfall: int, fund: Option<int>, x: int) {
    x <= shortfall && (fund.Some? ==> x <= fund.value) && (bps > 0 ==> x * 10_000 <= netSupply * bps)
  }

  /** For a supply that is not negative, the draw is the greatest allowed one. */
  lemma {:induction false} DrawIsLargest(netSupply: int, bps: int, shortfall: int, fund: Option<int>, x: int)
    requires netSupply >= 0
    ensures MayDraw(netSupply, bps, shortfall, fund, ComputeMaxDraw(netSupply, bps, shortfall, fund))
    ensures MayDraw(netSupply, bps, shortfall, fund, x) ==> x <= ComputeMaxDraw(netSupply, bps, shortfall, fund)
  {
    CapIsRounded(netSupply, bps);
    assert bps > 0 ==> netSupply * bps >= 0;
  }

  // ----- A fund that covers one shortfall after the other -----

  /** What is drawn for the shortfalls in turn, each draw reducing the fund. */
  function Draws(netSupply: int, bps: int, fund: int, shortfalls: seq<int>): (draws: seq<int>)
    ensures |draws| == |shortfalls|
    decreases |shortfalls|
  {
    if shortfalls == [] then []
    else
      var draw := ComputeMaxDraw(netSupply, bps, shortfalls[0], Some(fund));
      [draw] + Draws(netSupply, bps, fund - draw, shortfalls[1..])
  }

  function Sum(s: seq<int>): int {
    if s == [] then 0 else s[0] + Sum(s[1..])
  }

  predicate Nonnegative(s: seq<int>) {
    forall i :: 0 <= i < |s| ==> s[i] >= 0
  }

  function CappedEach(netSupply: int, bps: int, shortfalls: seq<int>): (r: seq<int>)
    ensures |r| == |shortfalls|
  {
    seq(|shortfalls|, i requires 0 <= i < |shortfalls| => Capped(netSupply, bps, shortfalls[i]))
  }

  lemma {:induction false} CapIsNonnegative(netSupply: int, bps: int)
    requires netSupply >= 0 && bps > 0
    ensures Quotient(netSupply * bps, 10_000) >= 0
  {
    assert netSupply * bps >= 0;
  }

  lemma {:induction false} CappedIsNonnegative(netSupply: int, bps: int, shortfall: int)
    requires netSupply >= 0 && shortfall >= 0
    ensures 0 <= Capped(netSupply, bps, shortfall) <= shortfall
  {
    if bps > 0 { CapIsNonnegative(netSupply, bps); }
  }

  lemma {:induction false} SumIsNonnegative(s: seq<int>)
    requires Nonnegative(s)
    ensures Sum(s) >= 0
  {
    if s != [] { SumIsNonnegative(s[1..]); }
  }

  /** In all, the fund pays the capped shortfalls until it is empty. */
  lemma {:induction false} TotalDrawn(netSupply: int, bps: int, fund: int, shortfalls: seq<int>)
    requires netSupply >= 0 && fund >= 0 && Nonnegative(shortfalls)
    ensures Nonnegative(Draws(netSupply, bps, fund, shortfalls))
    ensures Sum(Draws(netSupply, bps, fund, shortfalls)) == Min(fund, Sum(CappedEach(netSupply, bps, shortfalls)))
    decreases |shortfalls|
  {
    if shortfalls != [] {
      var draw := ComputeMaxDraw(netSupply, bps, shortfalls[0], Some(fund));
      DrawIsConserved(netSupply, bps, shortfalls[0], Some(fund));
      CappedIsNonnegative(netSupply, bps, shortfalls[0]);
      TotalDrawn(netSupply, bps, fund - draw, shortfalls[1..]);
      var draws := Draws(netSupply, bps, fund, shortfalls);
      var capped := CappedEach(netSupply, bps, shortfalls);
      assert draws[1..] == Draws(netSupply, bps, fund - draw, shortfalls[1..]);
      assert capped[1..] == CappedEach(netSupply, bps, shortfalls[1..]);
      CappedEachIsNonnegative(netSupply, bps, shortfalls[1..]);
      SumIsNonnegative(capped[1..]);
      assert forall i :: 1 <= i < |draws| ==> draws[i] == draws[1..][i - 1];
    }
  }

  /** What each shortfall is short of after its draw. */
  function Remainders(shortfalls: seq<int>, draws: seq<int>): seq<int>
    requires |draws| == |shortfalls|
  {
    if shortfalls == [] then []
    else [ComputeRemainingShortfall(shortfalls[0], draws[0])] + Remainders(shortfalls[1..], draws[1..])
  }

  /** Over any sequence, draws and remainders add up to the shortfalls, for any numbers at all. */
  lemma {:induction false} DrawsAreConserved(netSupply: int, bps: int, fund: int, shortfalls: seq<int>)
    ensures var draws := Draws(netSupply, bps, fund, shortfalls);
      Sum(draws) + Sum(Remainders(shortfalls, draws)) == Sum(shortfalls)
    decreases |shortfalls|
  {
    if shortfalls != [] {
      var draw := ComputeMaxDraw(netSupply, bps, shortfalls[0], Some(fund));
      DrawIsConserved(netSupply, bps, shortfalls[0], Some(fund));
      DrawsAreConserved(netSupply, bps, fund - draw, shortfalls[1..]);
      var draws := Draws(netSupply, bps, fund, shortfalls);
      assert draws[1..] == Draws(netSupply, bps, fund - draw, shortfalls[1..]);
      assert Remainders(shortfalls, draws)[1..] == Remainders(shortfalls[1..], draws[1..]);
    }
  }

  lemma {:induction false} CappedEachIsNonnegative(netSupply: int, bps: int, shortfalls: seq<int>)
    requires netSupply >= 0 && Nonnegative(shortfalls)
    ensures Nonnegative(CappedEach(netSupply, bps, shortfalls))
  {
    forall i | 0 <= i < |shortfalls| ensures CappedEach(netSupply, bps, shortfalls)[i] >= 0 {
      CappedIsNonnegative(netSupply, bps, shortfalls[i]);
    }
  }

  /** Capping the parts leaves at least as much as capping the sum. */
  lemma {:induction false} CapOfSum(netSupply: int, bps: int, shortfalls: seq<int>)
    requires netSupply >= 0 && Nonnegative(shortfalls)
    ensures Sum(CappedEach(netSupply, bps, shortfalls)) >= Capped(netSupply, bps, Sum(shortfalls))
    ensures bps <= 0 ==> Sum(CappedEach(netSupply, bps, shortfalls)) == Sum(shortfalls)
    decreases |shortfalls|
  {
    if bps > 0 { CapIsNonnegative(netSupply, bps); }
    if shortfalls != [] {
      CapOfSum(netSupply, bps, shortfalls[1..]);
      SumIsNonnegative(shortfalls[1..]);
      assert CappedEach(netSupply, bps, shortfalls)[1..] == CappedEach(netSupply, bps, shortfalls[1..]);
    }
  }

  /**
   Covering shortfalls one by one draws at least as much as covering their sum at once, and never more than the fund.
   Both draw the same exactly if there is no cap, or the fund is within the cap, or the shortfalls capped one by one
   come to no more than the cap.
   */
  lemma {:induction false} OneByOneDrawsMore(netSupply: int, bps: int, fund: int, shortfalls: seq<int>)
    requires netSupply >= 0 && fund >= 0 && Nonnegative(shortfalls)
    ensures var oneByOne := Sum(Draws(netSupply, bps, fund, shortfalls));
      var atOnce := ComputeMaxDraw(netSupply, bps, Sum(shortfalls), Some(fund));
      && atOnce <= oneByOne <= fund
      && (bps <= 0 ==> oneByOne == atOnce)
      && (bps > 0 ==>
            var cap := Quotient(netSupply * bps, 10_000);
            oneByOne == atOnce <==> fund <= cap || Sum(CappedEach(netSupply, bps, shortfalls)) <= cap)
  {
    TotalDrawn(netSupply, bps, fund, shortfalls);
    CapOfSum(netSupply, bps, shortfalls);
    DrawIsConserved(netSupply, bps, Sum(shortfalls), Some(fund));
    CapNeverRaises(netSupply, bps, shortfalls);
  }

  lemma {:induction false} CapNeverRaises(netSupply: int, bps: int, shortfalls: seq<int>)
    requires netSupply >= 0 && Nonnegative(shortfalls)
    ensures Sum(CappedEach(netSupply, bps, shortfalls)) <= Sum(shortfalls)
    decreases |shortfalls|
  {
    if shortfalls != [] {
      CapNeverRaises(netSupply, bps, shortfalls[1..]);
      CappedIsNonnegative(netSupply, bps, shortfalls[0]);
      assert CappedEach(netSupply, bps, shortfalls)[1..] == CappedEach(netSupply, bps, shortfalls[1..]);
    }
  }

  // ----- Order -----

  lemma {:induction false} SumWithout(s: seq<int>, i: nat)
    requires i < |s|
    ensures Sum(s) == s[i] + Sum(s[..i] + s[i + 1..])
  {
    if i == 0 {
      assert s[..0] + s[1..] == s[1..];
    } else {
      SumWithout(s[1..], i - 1);
      var rest := s[..i] + s[i + 1..];
      assert rest[1..] == s[1..][..i - 1] + s[1..][i..];
    }
  }

  lemma {:induction false} CappedWithout(netSupply: int, bps: int, s: seq<int>, i: nat)
    requires i < |s|
    ensures Sum(CappedEach(netSupply, bps, s))
         == Capped(netSupply, bps, s[i]) + Sum(CappedEach(netSupply, bps, s[..i] + s[i + 1..]))
  {
    var capped := CappedEach(netSupply, bps, s);
    SumWithout(capped, i);
    assert capped[..i] + capped[i + 1..] == CappedEach(netSupply, bps, s[..i] + s[i + 1..]);
  }

  lemma {:induction false} MultisetWithout(s: seq<int>, i: nat)
    requires i < |s|
    ensures multiset(s) == multiset{s[i]} + multiset(s[..i] + s[i + 1..])
  {
    assert s == s[..i] + [s[i]] + s[i + 1..];
  }

  lemma {:induction false} CancelOne(x: int, a: multiset<int>, b: multiset<int>)
    requires multiset{x} + a == multiset{x} + b
    ensures a == b
  {
    assert a == multiset{x} + a - multiset{x};
    assert b == multiset{x} + b - multiset{x};
  }

  lemma {:induction false} CappedSumPermutes(netSupply: int, bps: int, s: seq<int>, t: seq<int>)
    requires multiset(s) == multiset(t)
    ensures Sum(CappedEach(netSupply, bps, s)) == Sum(CappedEach(netSupply, bps, t))
    decreases |s|
  {
    if s == [] {
      assert |multiset(t)| == 0;
    } else {
      assert s[0] in multiset(t);
      var i :| 0 <= i < |t| && t[i] == s[0];
      MultisetWithout(s, 0);
      MultisetWithout(t, i);
      CancelOne(s[0], multiset(s[..0] + s[0 + 1..]), multiset(t[..i] + t[i + 1..]));
      CappedSumPermutes(netSupply, bps, s[..0] + s[0 + 1..], t[..i] + t[i + 1..]);
      CappedWithout(netSupply, bps, s, 0);
      CappedWithout(netSupply, bps, t, i);
    }
  }

  /** The order of the shortfalls does not change what the fund pays in all. */
  lemma {:induction false} OrderDoesNotMatter(netSupply: int, bps: int, fund: int, s: seq<int>, t: seq<int>)
    requires netSupply >= 0 && fund >= 0 && Nonnegative(s) && multiset(s) == multiset(t)
    ensures Sum(Draws(netSupply, bps, fund, s)) == Sum(Draws(netSupply, bps, fund, t))
  {
    forall i | 0 <= i < |t| ensures t[i] >= 0 {
      assert t[i] in multiset(s);
    }
    TotalDrawn(netSupply, bps, fund, s);
    TotalDrawn(netSupply, bps, fund, t);
    CappedSumPermutes(netSupply, bps, s, t);
  }
}
