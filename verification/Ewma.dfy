/**
 The moving average of the request rates: `(7 * average + 3 * rate) / 10` in
 integers, restarted from the rate itself while the request average is zero.
 */
module Ewma {

  function Step(average: nat, rate: nat): nat {
    (average * 7 + rate * 3) / 10
  }

  /** One history sample updates both averages; only the request average decides about a restart. */
  function StepPair(rps: nat, resp: nat, rpsRate: nat, respRate: nat): (nat, nat) {
    if rps == 0 then (rpsRate, respRate) else (Step(rps, rpsRate), Step(resp, respRate))
  }

  /** A step never leaves the range between the old average and the new rate. */
  lemma {:induction false} StepStaysBetween(average: nat, rate: nat)
    ensures average <= rate ==> average <= Step(average, rate) <= rate
    ensures rate <= average ==> rate <= Step(average, rate) <= average
    ensures Step(average, rate) == average <==> average <= rate <= average + 3
  {
  }

  /**
   The signed distance to the rate becomes 7/10 of itself, rounded away from
   below, no more and no less; from above it shrinks at least so much, and from
   below at least so much beyond a dead band of 3.
   */
  lemma {:induction false} StepContracts(average: nat, rate: nat)
    ensures 7 * (rate - average) <= 10 * (rate - Step(average, rate)) <= 7 * (rate - average) + 9
    ensures average <= rate ==> 10 * (rate - Step(average, rate) - 3) <= 7 * (rate - average - 3)
    ensures average >= rate ==> 10 * (Step(average, rate) - rate) <= 7 * (average - rate)
  {
  }

  /** The average after k samples at a constant rate, from a running start. */
  function Iterate(average: nat, rate: nat, k: nat): nat {
    if k == 0 then average else Step(Iterate(average, rate, k - 1), rate)
  }

  function Power(b: nat, k: nat): nat {
    if k == 0 then 1 else b * Power(b, k - 1)
  }

  lemma {:induction false} ScaleBound(p10: nat, p7: nat, later: int, now: int, start: int)
    requires 10 * later <= 7 * now && p10 * now <= p7 * start
    ensures 10 * p10 * later <= 7 * p7 * start
  {
    assert p10 * (7 * now - 10 * later) >= 0;
    assert p10 * (7 * now - 10 * later) == 7 * (p10 * now) - 10 * p10 * later;
    assert 7 * (p10 * now) <= 7 * (p7 * start);
    assert 7 * (p7 * start) == 7 * p7 * start;
  }

  /**
   From below no run is faster than 7/10 a sample, and from above none is
   slower: this bounds the signed distance for every average and rate.
   */
  lemma {:induction false} DistanceAtMost(average: nat, rate: nat, k: nat)
    ensures Power(10, k) * (Iterate(average, rate, k) - rate) <= Power(7, k) * (average - rate)
  {
    if k > 0 {
      DistanceAtMost(average, rate, k - 1);
      var before := Iterate(average, rate, k - 1);
      StepContracts(before, rate);
      ScaleBound(Power(10, k - 1), Power(7, k - 1), Step(before, rate) - rate, before - rate, average - rate);
    }
  }

  /** From above no run is faster than 7/10 a sample, and from below none is slower, but for the dead band of 3. */
  lemma {:induction false} DistanceAtLeast(average: nat, rate: nat, k: nat)
    ensures Power(10, k) * (rate - Iterate(average, rate, k) - 3) <= Power(7, k) * (rate - average - 3)
  {
    if k > 0 {
      DistanceAtLeast(average, rate, k - 1);
      var before := Iterate(average, rate, k - 1);
      StepContracts(before, rate);
      ScaleBound(Power(10, k - 1), Power(7, k - 1), rate - Step(before, rate) - 3, rate - before - 3, rate - average - 3);
    }
  }

  lemma {:induction false} ConvergesFromBelow(average: nat, rate: nat, k: nat)
    requires average <= rate
    ensures average <= Iterate(average, rate, k) <= rate
    ensures k > 0 ==> Iterate(average, rate, k - 1) <= Iterate(average, rate, k)
    ensures Power(10, k) * (rate - Iterate(average, rate, k) - 3) <= Power(7, k) * (rate - average - 3)
    ensures k >= rate - average ==> rate - 3 <= Iterate(average, rate, k)
    ensures rate - Iterate(average, rate, k) <= 3 || rate - Iterate(average, rate, k) + k <= rate - average
  {
    if k > 0 {
      ConvergesFromBelow(average, rate, k - 1);
      var before := Iterate(average, rate, k - 1);
      StepStaysBetween(before, rate);
    }
    DistanceAtLeast(average, rate, k);
  }

  /** Where a run at a constant rate ends: on the rate from above, and from below where the dead band of 3 begins. */
  function Settled(average: nat, rate: nat): nat {
    if average >= rate then rate
    else if average + 3 >= rate then average
    else rate - 3
  }

  lemma {:induction false} NeverBeyondSettled(average: nat, rate: nat, k: nat)
    requires average <= rate
    ensures Iterate(average, rate, k) <= Settled(average, rate)
  {
    if k > 0 {
      NeverBeyondSettled(average, rate, k - 1);
    }
  }

  lemma {:induction false} ConvergesFromAbove(average: nat, rate: nat, k: nat)
    requires average >= rate
    ensures rate <= Iterate(average, rate, k) <= average
    ensures k > 0 ==> Iterate(average, rate, k) <= Iterate(average, rate, k - 1)
    ensures Power(10, k) * (Iterate(average, rate, k) - rate) <= Power(7, k) * (average - rate)
    ensures k >= average - rate ==> Iterate(average, rate, k) == rate
    ensures Iterate(average, rate, k) == rate || Iterate(average, rate, k) - rate + k <= average - rate
  {
    if k > 0 {
      ConvergesFromAbove(average, rate, k - 1);
      var before := Iterate(average, rate, k - 1);
      StepStaysBetween(before, rate);
    }
    DistanceAtMost(average, rate, k);
  }

  /** After as many samples as the distance, a running average is exactly where it stays. */
  lemma {:induction false} SettlesExactly(average: nat, rate: nat, k: nat)
    requires k >= average - rate && k >= rate - average
    ensures Iterate(average, rate, k) == Settled(average, rate)
  {
    if average >= rate {
      ConvergesFromAbove(average, rate, k);
    } else {
      ConvergesFromBelow(average, rate, k);
      NeverBeyondSettled(average, rate, k);
    }
  }

  /** The pair of averages after k samples at constant rates. */
  function IteratePair(rps: nat, resp: nat, rpsRate: nat, respRate: nat, k: nat): (nat, nat) {
    if k == 0 then (rps, resp) else
    var (a, b) := IteratePair(rps, resp, rpsRate, respRate, k - 1);
    StepPair(a, b, rpsRate, respRate)
  }

  /** The restart rule does not disturb a running request average: both averages iterate on their own. */
  lemma {:induction false} PairIterates(rps: nat, resp: nat, rpsRate: nat, respRate: nat, k: nat)
    requires 0 < rps && 0 < rpsRate
    ensures IteratePair(rps, resp, rpsRate, respRate, k) == (Iterate(rps, rpsRate, k), Iterate(resp, respRate, k))
  {
    if k > 0 {
      PairIterates(rps, resp, rpsRate, respRate, k - 1);
    }
  }

  /** Without requests the request average falls as if alone: restarting from a rate of zero changes nothing. */
  lemma {:induction false} IdleIterates(rps: nat, resp: nat, respRate: nat, k: nat)
    ensures IteratePair(rps, resp, 0, respRate, k).0 == Iterate(rps, 0, k)
  {
    if k > 0 {
      IdleIterates(rps, resp, respRate, k - 1);
    }
  }

  /**
   The request average ends exactly on a constant rate if and only if it
   started at zero or at or above the rate; otherwise it stops where the dead
   band of 3 below the rate holds it.
   */
  lemma {:induction false} RequestAverageSettles(rps: nat, resp: nat, rpsRate: nat, respRate: nat, k: nat)
    requires k >= 1 && k >= rps - rpsRate && k >= rpsRate - rps
    ensures var settled := IteratePair(rps, resp, rpsRate, respRate, k).0;
            && settled == (if rps == 0 then rpsRate else Settled(rps, rpsRate))
            && (settled == rpsRate <==> rps == 0 || rps >= rpsRate)
  {
    SettlesExactly(rps, rpsRate, k);
    if rpsRate == 0 {
      IdleIterates(rps, resp, respRate, k);
    } else if rps == 0 {
      RestartIsExact(resp, rpsRate, respRate, k);
    } else {
      PairIterates(rps, resp, rpsRate, respRate, k);
    }
  }

  /**
   The response average follows the request average's restarts: it is exact once
   the request average starts at zero or has fallen to zero, and otherwise settles on its own.
   */
  lemma {:induction false} ResponseAverageSettles(rps: nat, resp: nat, rpsRate: nat, respRate: nat, k: nat)
    requires k > rps && k >= resp - respRate && k >= respRate - resp
    ensures IteratePair(rps, resp, rpsRate, respRate, k).1 ==
            if rps == 0 || rpsRate == 0 then respRate else Settled(resp, respRate)
  {
    if rps == 0 {
      RestartIsExact(resp, rpsRate, respRate, k);
    } else if rpsRate == 0 {
      SettlesExactly(rps, 0, k - 1);
      IdleIterates(rps, resp, respRate, k - 1);
    } else {
      PairIterates(rps, resp, rpsRate, respRate, k);
      SettlesExactly(resp, respRate, k);
    }
  }

  lemma {:induction false} RestartIsExact(resp: nat, rpsRate: nat, respRate: nat, k: nat)
    requires k >= 1
    ensures IteratePair(0, resp, rpsRate, respRate, k) == (rpsRate, respRate)
  {
    if k > 1 {
      RestartIsExact(resp, rpsRate, respRate, k - 1);
      StepStaysBetween(rpsRate, rpsRate);
      StepStaysBetween(respRate, respRate);
    }
  }
}
