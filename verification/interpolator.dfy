/**
 * The client's interpolation ring buffer (client/src/util/Interpolator.ts): a fixed-size circular
 * buffer of timed samples, overwriting the oldest when full, pruning stale samples while keeping at
 * least two, and answering "where was it at time t" by clamping to the oldest sample or interpolating
 * linearly between the two oldest.
 */
module Interpolation {
  import opened RealMath


  /** One timed sample (`InterpolatedValue`). */
  datatype Sample = Sample(time: real, x: real, y: real)

  /** Result of a query: `null` when the buffer is empty, a value, or an undefined value when the two
      samples to interpolate between have the same time (0/0 or x/0 in floating point). */
  datatype Reading = NoData | Value(s: Sample) | Undefined

  /** `setFrom`: a copy of the sample. */
  function Copy(a: Sample): (r: Sample)
    ensures r == a
  {
    Sample(a.time, a.x, a.y)
  }

  /** `interpolate`: componentwise `a + (b - a) * alpha`. */
  function Lerp(a: Sample, b: Sample, alpha: real): (r: Sample)
    ensures alpha == 0.0 ==> r == a
    ensures alpha == 1.0 ==> r == b
  {
    Sample(a.time + (b.time - a.time) * alpha, a.x + (b.x - a.x) * alpha, a.y + (b.y - a.y) * alpha)
  }

  /** For `alpha` in [0, 1] the interpolated sample lies between the two samples, componentwise. */
  lemma LerpBetweenSamples(a: Sample, b: Sample, alpha: real)
    requires 0.0 <= alpha <= 1.0
    ensures Between(Lerp(a, b, alpha), a, b)
  {
    LerpBetween(a.time, b.time, alpha);
    LerpBetween(a.x, b.x, alpha);
    LerpBetween(a.y, b.y, alpha);
  }

  lemma LerpBetween(p: real, q: real, alpha: real)
    requires 0.0 <= alpha <= 1.0
    ensures BetweenReals(p + (q - p) * alpha, p, q)
  {
    var d := q - p;
    assert d * alpha + d * (1.0 - alpha) == d;
    if d >= 0.0 {
      MulNonneg(d, alpha);
      MulNonneg(d, 1.0 - alpha);
    } else {
      MulNonneg(-d, alpha);
      MulNonneg(-d, 1.0 - alpha);
    }
  }

  /** A positive ratio no larger than one. */
  lemma RatioInUnit(x: real, y: real)
    requires 0.0 < x <= y
    ensures 0.0 < x / y <= 1.0
  {
    DivPositive(x, y);
    DivWithin(x, y, 0.0, 1.0);
  }

  predicate BetweenReals(v: real, p: real, q: real)
  {
    (p <= v <= q) || (q <= v <= p)
  }

  /** Every component of `r` lies between the corresponding components of `a` and `b`. */
  predicate Between(r: Sample, a: Sample, b: Sample)
  {
    BetweenReals(r.time, a.time, b.time) && BetweenReals(r.x, a.x, b.x) && BetweenReals(r.y, a.y, b.y)
  }

  /** The slot `k` places after `start` in a ring of `n` slots; it equals `(start + k) % n`. */
  function Slot(start: nat, k: nat, n: nat): (i: nat)
    requires start < n && k <= n
    ensures i < n
  {
    if start + k < n then start + k else start + k - n
  }

  lemma SlotIsMod(start: nat, k: nat, n: nat)
    requires start < n && k <= n
    ensures Slot(start, k, n) == (start + k) % n
  {
    ModSmall(start + k, n);
  }

  /** The logical contents of a ring: `count` entries starting at `start`, wrapping around. */
  function Ring(buf: seq<Sample>, start: nat, count: nat): (c: seq<Sample>)
    requires |buf| > 0 && start < |buf| && count <= |buf|
    ensures |c| == count
    ensures count > 0 ==> c[0] == buf[start]
  {
    seq(count, k requires 0 <= k < count => buf[Slot(start, k, |buf|)])
  }

  /** `i % n` for `0 <= i < 2n`, without a division. */
  lemma ModSmall(i: int, n: int)
    requires 0 <= i < 2 * n
    ensures i % n == (if i < n then i else i - n)
  {
    if i < n {
    } else {
      assert i == 1 * n + (i - n);
    }
  }

  /** Advancing the start by one slot drops the oldest entry. */
  lemma RingTail(buf: seq<Sample>, start: nat, count: nat)
    requires |buf| > 0 && start < |buf| && 0 < count <= |buf|
    ensures var next := if start + 1 < |buf| then start + 1 else 0;
      Ring(buf, next, count - 1) == Ring(buf, start, count)[1..]
  {
    var n := |buf|;
    var next := if start + 1 < n then start + 1 else 0;
    var c := Ring(buf, start, count);
    assert forall k | 0 <= k < count - 1 :: Ring(buf, next, count - 1)[k] == c[1..][k];
  }

  /** Writing the slot after the newest entry appends to the ring; when the ring is full, that slot
      holds the oldest entry, so the start moves on and the oldest is lost. */
  lemma AddRing(buf: seq<Sample>, start: nat, count: nat, s: Sample)
    requires |buf| > 0 && start < |buf| && count <= |buf|
    ensures var n := |buf|;
      var next := Slot(start, count, n);
      var buf' := buf[next := s];
      if count == n then
        Ring(buf', if start + 1 < n then start + 1 else 0, count) == Ring(buf, start, count)[1..] + [s]
      else
        Ring(buf', start, count + 1) == Ring(buf, start, count) + [s]
  {
    var n := |buf|;
    var next := Slot(start, count, n);
    var buf' := buf[next := s];
    var c := Ring(buf, start, count);
    if count == n {
      assert next == start;
      var start' := if start + 1 < n then start + 1 else 0;
      var r := Ring(buf', start', count);
      forall k | 0 <= k < count
        ensures r[k] == (c[1..] + [s])[k]
      {
        if k < count - 1 {
          assert Slot(start', k, n) == Slot(start, k + 1, n);
        }
      }
    } else {
      assert next == Slot(start, count, n);
      var r := Ring(buf', start, count + 1);
      forall k | 0 <= k < count + 1
        ensures r[k] == (c + [s])[k]
      {
      }
    }
  }

  /** The second entry of a ring. */
  lemma RingSecond(buf: seq<Sample>, start: nat, count: nat)
    requires |buf| > 0 && start < |buf| && 1 < count <= |buf|
    ensures Ring(buf, start, count)[1] == buf[if start + 1 < |buf| then start + 1 else 0]
  {
  }

  /** `clearOlderThan`: drop the oldest sample while the second-oldest is older than `t` and more
      than two samples remain. */
  function DropStale(c: seq<Sample>, t: real): (r: seq<Sample>)
    decreases |c|
  {
    if |c| > 2 && c[1].time < t then DropStale(c[1..], t) else c
  }

  /** Pruning keeps a suffix: all of a buffer of at most two, and otherwise at least two samples;
      every sample it drops was followed by one older than `t`; and when it keeps more than two, the
      second-oldest kept is not older than `t`. */
  lemma {:induction false} DropStaleShape(c: seq<Sample>, t: real)
    ensures var r := DropStale(c, t);
      && |r| <= |c| && r == c[|c| - |r|..]
      && (|c| <= 2 ==> r == c)
      && (|r| >= 2 || r == c)
      && (|r| > 2 ==> r[1].time >= t)
      && StalePrefix(c, |c| - |r|, t)
    decreases |c|
  {
    if |c| > 2 && c[1].time < t {
      DropStaleShape(c[1..], t);
      var r := DropStale(c, t);
      assert forall j :: 2 <= j <= |c| - |r| ==> c[j] == c[1..][j - 1];
    }
  }

  /** One pruning step. */
  lemma DropStaleStep(c: seq<Sample>, t: real)
    requires |c| > 2 && c[1].time < t
    ensures DropStale(c, t) == DropStale(c[1..], t)
  {
  }

  /** The samples after the oldest, up to index `d`, are all older than `t`. */
  ghost predicate StalePrefix(c: seq<Sample>, d: nat, t: real)
  {
    forall j :: 1 <= j <= d ==> j < |c| && c[j].time < t
  }

  /** One iteration of the pruning loop, on the logical contents. */
  lemma PruneStep(b: seq<Sample>, start: nat, count: nat, c0: seq<Sample>, d: nat, t: real)
    requires |b| > 0 && start < |b| && 2 < count <= |b|
    requires d <= |c0| && Ring(b, start, count) == c0[d..] && StalePrefix(c0, d, t)
    requires b[if start + 1 < |b| then start + 1 else 0].time < t
    ensures d + 1 <= |c0| && StalePrefix(c0, d + 1, t)
    ensures Ring(b, if start + 1 < |b| then start + 1 else 0, count - 1) == c0[d + 1..]
  {
    RingSecond(b, start, count);
    RingTail(b, start, count);
    assert c0[d + 1] == Ring(b, start, count)[1];
    assert c0[d..][1..] == c0[d + 1..];
  }

  /** The pruning loop's exit: what remains is exactly the pruned contents. */
  lemma PruneDone(b: seq<Sample>, start: nat, count: nat, c0: seq<Sample>, d: nat, t: real)
    requires |b| > 0 && start < |b| && 1 <= count <= |b|
    requires d <= |c0| && (d == 0 || count >= 2)
    requires Ring(b, start, count) == c0[d..] && StalePrefix(c0, d, t)
    requires !(b[if start + 1 < |b| then start + 1 else 0].time < t && count > 2)
    ensures Ring(b, start, count) == DropStale(c0, t)
  {
    if count > 2 {
      RingSecond(b, start, count);
    }
    DropStaleFrom(c0, t, d);
    DropStaleStop(Ring(b, start, count), t);
  }

  /** Dropping `d` samples whose successors are all stale, never going below two, is a prefix of
      pruning. */
  lemma {:induction false} DropStaleFrom(c: seq<Sample>, t: real, d: nat)
    requires d <= |c| && (d == 0 || |c| - d >= 2)
    requires StalePrefix(c, d, t)
    ensures DropStale(c, t) == DropStale(c[d..], t)
    decreases d
  {
    if d > 0 {
      assert |c| > 2 && c[1].time < t;
      DropStaleStep(c, t);
      assert forall j :: 1 <= j <= d - 1 ==> c[1..][j] == c[j + 1];
      DropStaleFrom(c[1..], t, d - 1);
      assert c[1..][d - 1..] == c[d..];
    }
  }

  /** Pruning stops once the second-oldest sample is recent enough or at most two remain. */
  lemma DropStaleStop(c: seq<Sample>, t: real)
    requires !(|c| > 2 && c[1].time < t)
    ensures DropStale(c, t) == c
  {
  }

  /** The query on already-pruned contents at the shifted time `t`. */
  function Query(c: seq<Sample>, t: real): (r: Reading)
    ensures r.NoData? <==> |c| == 0
    ensures r.Undefined? <==> |c| > 1 && c[0].time < t && c[1].time == c[0].time
    ensures |c| > 0 && (c[0].time >= t || |c| == 1) ==> r == Value(c[0])
  {
    if |c| < 1 then NoData
    else if c[0].time >= t || |c| == 1 then Value(Copy(c[0]))
    else if c[1].time == c[0].time then Undefined
    else Value(Lerp(c[0], c[1], Alpha(c[0], c[1], t)))
  }

  /** How far `t` lies from `a` towards `b`, in units of the time between them. */
  function Alpha(a: Sample, b: Sample, t: real): (alpha: real)
    requires b.time != a.time
  {
    (t - a.time) / (b.time - a.time)
  }

  /** Wherever the query interpolates, the interpolated sample's time is exactly the query time. */
  lemma QueryHitsTime(c: seq<Sample>, t: real)
    requires |c| > 1 && c[0].time < t && c[1].time != c[0].time
    ensures Query(c, t).Value? && Query(c, t).s.time == t
  {
    var a, b := c[0], c[1];
    var alpha := Alpha(a, b, t);
    assert (b.time - a.time) * alpha == t - a.time;
  }

  /** With the query time strictly after the oldest sample and no later than the second, the query
      interpolates: its value lies between the two oldest samples. */
  lemma QueryInterpolates(d: seq<Sample>, t: real)
    requires |d| > 1 && d[0].time < t <= d[1].time
    ensures Query(d, t).Value? && Query(d, t).s.time == t && Between(Query(d, t).s, d[0], d[1])
  {
    var a, b := d[0], d[1];
    var alpha := Alpha(a, b, t);
    RatioInUnit(t - a.time, b.time - a.time);
    assert Query(d, t) == Value(Lerp(a, b, alpha));
    LerpBetweenSamples(a, b, alpha);
    QueryHitsTime(d, t);
  }

  /** After pruning, with at least three samples kept and the oldest one older than `t`, the query
      genuinely interpolates rather than extrapolates. */
  lemma {:induction false} PrunedQueryInterpolates(c: seq<Sample>, t: real)
    requires |DropStale(c, t)| > 2
    requires DropStale(c, t)[0].time < t
    ensures var d := DropStale(c, t);
      Query(d, t).Value? && Query(d, t).s.time == t && Between(Query(d, t).s, d[0], d[1])
  {
    DropStaleShape(c, t);
    QueryInterpolates(DropStale(c, t), t);
  }

  /** Pruning twice at the same time is the same as pruning once. */
  lemma {:induction false} DropStaleIdempotent(c: seq<Sample>, t: real)
    ensures DropStale(DropStale(c, t), t) == DropStale(c, t)
    decreases |c|
  {
    if |c| > 2 && c[1].time < t {
      DropStaleIdempotent(c[1..], t);
    }
  }


  class Interpolator {
    const interpolationWindow: real
    const size: nat
    const buffer: array<Sample>
    var startIndex: nat
    var count: nat
    var alpha: real

    ghost predicate Valid()
      reads this`startIndex, this`count
    {
      size >= 1 && buffer.Length == size && startIndex < size && count <= size
    }

    /** The samples held, oldest first. */
    function Contents(): (c: seq<Sample>)
      requires Valid()
      reads this`startIndex, this`count, buffer
      ensures |c| == count
    {
      Ring(buffer[..], startIndex, count)
    }

    /** A buffer of `ceil(window * sizeCoef / minStepTime) + 1` zero samples, none of them held. */
    constructor(interpolationWindow: real, minStepTime: real, sizeCoef: real)
      requires interpolationWindow >= 0.0 && minStepTime > 0.0 && sizeCoef >= 0.0
      ensures Valid() && fresh(buffer)
      ensures size == Ceil((interpolationWindow * sizeCoef) / minStepTime) + 1
      ensures this.interpolationWindow == interpolationWindow
      ensures Contents() == []
    {
      this.interpolationWindow := interpolationWindow;
      var n := Ceil((interpolationWindow * sizeCoef) / minStepTime) + 1;
      size := n;
      buffer := new Sample[n](_ => Sample(0.0, 0.0, 0.0));
      startIndex, count, alpha := 0, 0, 0.0;
    }

    /** `increment`: the next slot, wrapping to 0 after the last. */
    function Increment(i: nat): (r: nat)
      requires i < size
      ensures r < size
    {
      Slot(i, 1, size)
    }

    /** `increment` is `(i + 1) % size`. */
    lemma IncrementIsMod(i: nat)
      requires i < size
      ensures Increment(i) == (i + 1) % size
      ensures Increment(i) == 0 <==> i == size - 1
    {
      SlotIsMod(i, 1, size);
    }

    /** Adds the sample as the newest; when full, the oldest is overwritten. */
    method Add(s: Sample)
      requires Valid()
      modifies this, buffer
      ensures Valid()
      ensures Contents() == (if old(count) == size then old(Contents())[1..] else old(Contents())) + [s]
    {
      ghost var c := Contents();
      ghost var b := buffer[..];
      var nextIndex := (startIndex + count) % size;
      SlotIsMod(startIndex, count, size);
      if count == size {
        startIndex := Increment(startIndex);
      } else {
        count := count + 1;
      }
      buffer[nextIndex] := s;
      AddRing(b, old(startIndex), old(count), s);
    }

    /** `clearOlderThan`: drops stale samples, never fewer than two remaining; a no-op when empty. */
    method ClearOlderThan(t: real)
      requires Valid()
      modifies this`startIndex, this`count
      ensures Valid() && count <= old(count) && (old(count) > 0 ==> count > 0)
      ensures Contents() == DropStale(old(Contents()), t)
    {
      if count == 0 {
        return;
      }
      ghost var b := buffer[..];
      ghost var c0 := Ring(b, startIndex, count);
      ghost var dropped := 0;
      var secondIndex := Increment(startIndex);
      while buffer[secondIndex].time < t && count > 2
        invariant Valid() && count >= 1
        invariant secondIndex == (if startIndex + 1 < size then startIndex + 1 else 0)
        invariant |c0| == old(count) && count + dropped == |c0|
        invariant Ring(b, startIndex, count) == c0[dropped..]
        invariant dropped == 0 || count >= 2
        invariant StalePrefix(c0, dropped, t)
        decreases count
      {
        PruneStep(b, startIndex, count, c0, dropped, t);
        startIndex := secondIndex;
        secondIndex := Increment(secondIndex);
        count := count - 1;
        dropped := dropped + 1;
      }
      PruneDone(b, startIndex, count, c0, dropped, t);
      assert buffer[..] == b;
    }

    /** `getAtTime`: prunes at `time - window`, then clamps to the oldest sample or interpolates
        between the two oldest; an empty buffer gives no data and is left untouched. */
    method GetAtTime(time: real) returns (r: Reading)
      requires Valid()
      modifies this`startIndex, this`count, this`alpha
      ensures Valid()
      ensures old(count) == 0 ==> r == NoData && unchanged(this)
      ensures old(count) > 0 ==>
        Contents() == DropStale(old(Contents()), time - interpolationWindow) &&
        r == Query(Contents(), time - interpolationWindow)
    {
      if count < 1 {
        return NoData;
      }
      var t := time - interpolationWindow;
      ghost var c0 := Contents();
      ClearOlderThan(t);
      ghost var c := Contents();
      assert c == DropStale(c0, t);
      var secondIndex := Increment(startIndex);
      var firstPoint := buffer[startIndex];
      if firstPoint.time >= t || count == 1 {
        r := Value(Copy(firstPoint));
      } else {
        var secondPoint := buffer[secondIndex];
        RingSecond(buffer[..], startIndex, count);
        assert firstPoint == c[0] && secondPoint == c[1];
        if secondPoint.time == firstPoint.time {
          r := Undefined;
        } else {
          alpha := Alpha(firstPoint, secondPoint, t);
          r := Value(Lerp(firstPoint, secondPoint, alpha));
          assert r == Query(c, t);
        }
      }
    }

    /** Enough data to start: at least two samples, the oldest at or before `time - window`. */
    function CanStart(time: real): (r: bool)
      requires Valid()
      reads this, buffer
      ensures r <==> |Contents()| > 1 && Contents()[0].time <= time - interpolationWindow
    {
      count > 1 && buffer[startIndex].time <= time - interpolationWindow
    }

    /** Data reaches `time - window`: the newest sample is at or after it. */
    function HasDataFor(time: real): (r: bool)
      requires Valid()
      reads this, buffer
      ensures r <==> |Contents()| > 0 && Contents()[|Contents()| - 1].time >= time - interpolationWindow
    {
      if count > 0 then
        SlotIsMod(startIndex, count - 1, size);
        buffer[(startIndex + count - 1) % size].time >= time - interpolationWindow
      else false
    }

    method ClearAll()
      requires Valid()
      modifies this
      ensures Valid() && startIndex == old(startIndex) && Contents() == []
    {
      count := 0;
    }
  }
}
