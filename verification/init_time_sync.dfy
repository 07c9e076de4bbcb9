/**
 * The client's estimate of the match start time (client/src/logic/InitTimeSync.ts): each countdown
 * message gives one estimate `now + ticksLeft * timestep`; the estimate is the mean of the middle half
 * of the (reordered) estimates, refined by dropping the values more than one timestep away from that
 * mean, with fallbacks when there are too few values.
 */
module StartTime {
  import opened Maybe
  import opened RealMath

  /** The reordering `Array.prototype.sort()` applies: it compares the numbers' string forms, so the
      model only knows that it is a permutation. */
  type Reorder = f: seq<real> -> seq<real> | forall s :: multiset(f(s)) == multiset(s) witness s => s

  const SORT: Reorder

  function Sum(s: seq<real>): real
  {
    if s == [] then 0.0 else s[0] + Sum(s[1..])
  }

  /** Every value lies in `[lo, hi]`. */
  predicate AllWithin(s: seq<real>, lo: real, hi: real)
  {
    forall i :: 0 <= i < |s| ==> lo <= s[i] <= hi
  }

  lemma {:induction false} SumBounds(s: seq<real>, lo: real, hi: real)
    requires AllWithin(s, lo, hi)
    ensures |s| as real * lo <= Sum(s) <= |s| as real * hi
  {
    if s != [] {
      assert AllWithin(s[1..], lo, hi) by {
        forall i | 0 <= i < |s[1..]| ensures lo <= s[1..][i] <= hi {
          assert s[1..][i] == s[i + 1];
        }
      }
      SumBounds(s[1..], lo, hi);
    }
  }

  /** The mean of values in `[lo, hi]` lies in `[lo, hi]`. */
  lemma MeanWithin(s: seq<real>, lo: real, hi: real)
    requires |s| > 0 && AllWithin(s, lo, hi)
    ensures lo <= Sum(s) / |s| as real <= hi
  {
    SumBounds(s, lo, hi);
    DivWithin(Sum(s), |s| as real, lo, hi);
  }

  /** `filter(val => Math.abs(val - avg) <= timestep)`. */
  function {:induction false} Near(s: seq<real>, avg: real, timestep: real): (r: seq<real>)
    ensures |r| <= |s|
    ensures AllWithin(r, avg - timestep, avg + timestep)
    ensures forall lo, hi :: AllWithin(s, lo, hi) ==> AllWithin(r, lo, hi)
  {
    if s == [] then []
    else
      var rest := Near(s[1..], avg, timestep);
      assert forall lo, hi :: AllWithin(s, lo, hi) ==> AllWithin(s[1..], lo, hi) by {
        forall lo, hi | AllWithin(s, lo, hi) ensures AllWithin(s[1..], lo, hi) {
          assert forall i :: 0 <= i < |s[1..]| ==> s[1..][i] == s[i + 1];
        }
      }
      if -timestep <= s[0] - avg <= timestep then [s[0]] + rest else rest
  }

  /** The filter is exact: every value within one timestep of the average is kept, as often as it
      occurs, and nothing else. */
  lemma {:induction false} NearKeepsEveryNear(s: seq<real>, avg: real, timestep: real)
    ensures forall x :: multiset(Near(s, avg, timestep))[x] == if -timestep <= x - avg <= timestep then multiset(s)[x] else 0
  {
    if s != [] {
      NearKeepsEveryNear(s[1..], avg, timestep);
      assert multiset(s) == multiset{s[0]} + multiset(s[1..]) by {
        assert s == [s[0]] + s[1..];
      }
      var rest := Near(s[1..], avg, timestep);
      if -timestep <= s[0] - avg <= timestep {
        assert multiset([s[0]] + rest) == multiset{s[0]} + multiset(rest);
      }
    }
  }


  /** The middle half `[floor(n/4), ceil(3n/4))` of `n` values. */
  function MiddleHalf(n: nat): (b: (nat, nat))
    ensures b.0 <= b.1 <= n
    ensures n > 0 ==> b.0 < b.1
  {
    var start := (n as real * 0.25).Floor;
    var end := Ceil(n as real * 0.75);
    (start, end)
  }

  /** `estimate` as written, on the values in their sorted order; `None` is the 0/0 of an empty list. */
  function Estimate(xs: seq<real>, timestep: real): (r: Option<real>)
    ensures r.None? <==> xs == []
  {
    var bounds := MiddleHalf(|xs|);
    var start, end := bounds.0, bounds.1;
    var len := end - start;
    if len > 3 then
      var avg := Sum(xs[start..end]) / len as real;
      var filtered := Near(xs, avg, timestep);
      if |filtered| > 3 then Some(Sum(filtered) / |filtered| as real) else Some(avg)
    else if len == 0 then None
    else Some(Sum(xs) / len as real)
  }

  /** With enough values in the middle half, the estimate lies within the range of the values, and
      when the ±timestep filter keeps more than three values it is also within one timestep of the
      middle-half mean. */
  lemma EstimateInRange(xs: seq<real>, timestep: real, lo: real, hi: real)
    requires AllWithin(xs, lo, hi)
    requires var (start, end) := MiddleHalf(|xs|); end - start > 3
    ensures var (start, end) := MiddleHalf(|xs|);
      var avg := Sum(xs[start..end]) / (end - start) as real;
      var r := Estimate(xs, timestep);
      r.Some? && lo <= r.value <= hi &&
      (|Near(xs, avg, timestep)| > 3 ==> avg - timestep <= r.value <= avg + timestep)
  {
    var (start, end) := MiddleHalf(|xs|);
    var mid := xs[start..end];
    assert AllWithin(mid, lo, hi) by {
      forall i | 0 <= i < |mid| ensures lo <= mid[i] <= hi {
        assert mid[i] == xs[start + i];
      }
    }
    MeanWithin(mid, lo, hi);
    var avg := Sum(mid) / (end - start) as real;
    var filtered := Near(xs, avg, timestep);
    if |filtered| > 3 {
      MeanWithin(filtered, lo, hi);
      MeanWithin(filtered, avg - timestep, avg + timestep);
    }
  }

  /** The fallback divides the sum of ALL values by the size of the middle half: four equal
      estimates give twice their value. */
  lemma FourEqualEstimatesDoubled(v: real, timestep: real)
    ensures Estimate([v, v, v, v], timestep) == Some(2.0 * v)
  {
    var xs := [v, v, v, v];
    assert MiddleHalf(4) == (1, 3);
    assert xs[1..] == [v, v, v] && [v, v, v][1..] == [v, v] && [v, v][1..] == [v];
    assert Sum([v]) == v + Sum([]);
    assert Sum([v, v]) == v + Sum([v]);
    assert Sum([v, v, v]) == v + Sum([v, v]);
    assert Sum(xs) == v + Sum([v, v, v]);
    assert Sum(xs) / 2.0 == 2.0 * v;
    var bounds := MiddleHalf(|xs|);
    assert bounds.1 - bounds.0 == 2;
    assert Estimate(xs, timestep).value == Sum(xs) / 2.0;
  }

  /** `estimate` corrected: the fallback is the mean of all values. */
  function EstimateCorrected(xs: seq<real>, timestep: real): (r: Option<real>)
    ensures r.None? <==> xs == []
  {
    var (start, end) := MiddleHalf(|xs|);
    if end - start > 3 then Estimate(xs, timestep)
    else if xs == [] then None
    else Some(Sum(xs) / |xs| as real)
  }

  /** The corrected estimate always lies within the range of the values. */
  lemma EstimateCorrectedInRange(xs: seq<real>, timestep: real, lo: real, hi: real)
    requires xs != [] && AllWithin(xs, lo, hi)
    ensures lo <= EstimateCorrected(xs, timestep).value <= hi
  {
    var (start, end) := MiddleHalf(|xs|);
    if end - start > 3 {
      EstimateInRange(xs, timestep, lo, hi);
    } else {
      MeanWithin(xs, lo, hi);
    }
  }

  class InitTimeSync {
    const timestep: real
    var estimations: seq<real>

    constructor(timestep: real)
      ensures this.timestep == timestep && estimations == []
    {
      this.timestep := timestep;
      estimations := [];
    }

    /** `addTimePoint`: one more estimate, `now + ticksLeft * timestep`. */
    method AddTimePoint(now: real, ticksLeft: int)
      modifies this
      ensures estimations == old(estimations) + [now + ticksLeft as real * timestep]
    {
      estimations := estimations + [now + ticksLeft as real * timestep];
    }

    /** `estimate`: reorders the stored estimates in place and estimates from them as written
        (`Estimate`). */
    method EstimateStart() returns (r: Option<real>)
      modifies this
      ensures multiset(estimations) == multiset(old(estimations))
      ensures r == Estimate(estimations, timestep)
    {
      estimations := SORT(estimations);
      r := Estimate(estimations, timestep);
    }
  }
}
