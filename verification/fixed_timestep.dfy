/**
 * The fixed-timestep scheduler (shared/FixedTimestep.ts). Wall-clock readings (`performance.now()`)
 * are passed in as `now`; rescheduling through `setTimeout` is not modelled, so a `Tick` is one check.
 */
module Timestep {
  import opened RealMath


  /** Steps happen when the clock is within this many ms before the deadline. */
  const TOLERANCE: real := 3.0

  /** The scheduler's state. */
  datatype Clock = Clock(enabled: bool, ticks: int, startTime: real, nextTick: real)

  /** One check at wall time `now`: a disabled scheduler does nothing; otherwise it steps once when
      `now` is past `nextTick - 3`. */
  function Check(c: Clock, now: real, timestep: real): Clock
  {
    if c.enabled && now - c.nextTick > -TOLERANCE then
      c.(ticks := c.ticks + 1, nextTick := c.nextTick + timestep)
    else c
  }

  /** `stop`: clears `enabled` and nothing else, so stopping a stopped scheduler changes nothing. */
  function Stopped(c: Clock): (r: Clock)
    ensures !r.enabled
    ensures r.ticks == c.ticks && r.startTime == c.startTime && r.nextTick == c.nextTick
    ensures !c.enabled ==> r == c
  {
    c.(enabled := false)
  }

  /** Whether the check at `now` steps. */
  predicate Steps(c: Clock, now: real)
  {
    c.enabled && now - c.nextTick > -TOLERANCE
  }

  /** A sequence of checks, one per wall-clock reading. */
  function {:induction false} CheckAll(c: Clock, times: seq<real>, timestep: real): (r: Clock)
    ensures r.enabled == c.enabled && r.startTime == c.startTime
    ensures c.ticks <= r.ticks <= c.ticks + |times|
    ensures r.nextTick == c.nextTick + (r.ticks - c.ticks) as real * timestep
    decreases |times|
  {
    if times == [] then c
    else
      var c1 := Check(c, times[0], timestep);
      var r := CheckAll(c1, times[1..], timestep);
      r
  }

  /** A stopped scheduler never steps again, however often it is checked. */
  lemma {:induction false} StoppedStaysPut(c: Clock, times: seq<real>, timestep: real)
    ensures CheckAll(Stopped(c), times, timestep) == Stopped(c)
  {
    if times != [] {
      StoppedStaysPut(c, times[1..], timestep);
    }
  }

  /** Under overload the scheduler falls behind instead of catching up: however late the checks are,
      k checks take at most k steps; and checks that each come at or after the current deadline take
      exactly one step each. */
  lemma {:induction false} OnTimeChecksStepOnce(c: Clock, times: seq<real>, timestep: real)
    requires c.enabled && timestep >= 0.0
    requires forall k :: 0 <= k < |times| ==> times[k] >= c.nextTick + k as real * timestep
    ensures CheckAll(c, times, timestep).ticks == c.ticks + |times|
    decreases |times|
  {
    if times != [] {
      var c1 := Check(c, times[0], timestep);
      assert c1.ticks == c.ticks + 1 && c1.nextTick == c.nextTick + timestep;
      forall k | 0 <= k < |times[1..]|
        ensures times[1..][k] >= c1.nextTick + k as real * timestep
      {
        assert times[1..][k] == times[k + 1];
        assert (k + 1) as real * timestep == timestep + k as real * timestep;
      }
      OnTimeChecksStepOnce(c1, times[1..], timestep);
    }
  }

  /** A timestep length in ms. */
  type Positive = r: real | r > 0.0 witness 1.0

  class FixedTimestep {
    const timestep: Positive
    var ticks: int
    var startTime: real
    var enabled: bool
    var nextTick: real
    /** How many times the step callback `onTick` has been invoked. */
    ghost var onTickCalls: nat

    function View(): Clock
      reads this
    {
      Clock(enabled, ticks, startTime, nextTick)
    }

    constructor(timestep: Positive)
      ensures this.timestep == timestep
      ensures View() == Clock(false, 0, 0.0, 0.0) && onTickCalls == 0
    {
      this.timestep := timestep;
      ticks, startTime, enabled, nextTick := 0, 0.0, false, 0.0;
      onTickCalls := 0;
    }

    function IsEnabled(): (r: bool)
      reads this
      ensures r == View().enabled
    {
      enabled
    }

    /** Started and past the start time. */
    function HasStarted(now: real): (r: bool)
      reads this
      ensures r ==> enabled
      ensures r <==> enabled && startTime <= now
    {
      enabled && now >= startTime
    }

    /** `start(startTime, nextTick, initTick)` followed by its immediate check at `now`. The source's
        defaults are startTime = now, nextTick = startTime, initTick = -1. */
    method Start(now: real, startTime: real, nextTick: real, initTick: int)
      modifies this
      ensures View() == Check(Clock(true, initTick, startTime, nextTick), now, timestep)
      ensures onTickCalls == old(onTickCalls) + (if now - nextTick > -TOLERANCE then 1 else 0)
    {
      this.enabled := true;
      this.ticks := initTick;
      this.startTime := startTime;
      this.nextTick := nextTick;
      Tick(now);
    }

    /** Starts immediately, with `tick` considered to be `now`: the immediate check always steps, so
        the scheduler ends at `tick` with its next deadline one timestep ahead. */
    method StartNowAtTick(now: real, tick: int)
      modifies this
      ensures enabled && ticks == tick
      ensures startTime == now - tick as real * timestep && nextTick == now + timestep
      ensures onTickCalls == old(onTickCalls) + 1
    {
      Start(now, now - tick as real * timestep, now, tick - 1);
    }

    method Stop()
      modifies this
      ensures View() == Stopped(old(View())) && onTickCalls == old(onTickCalls)
    {
      enabled := false;
    }

    /** One check at wall time `now`: at most one step, which advances `ticks` by one and the deadline
        by one timestep and invokes the callback once. */
    method Tick(now: real)
      modifies this
      ensures View() == Check(old(View()), now, timestep)
      ensures onTickCalls == old(onTickCalls) + (if Steps(old(View()), now) then 1 else 0)
    {
      if !enabled {
        return;
      }
      if now - nextTick > -TOLERANCE {
        ticks := ticks + 1;
        nextTick := nextTick + timestep;
        onTickCalls := onTickCalls + 1;
      }
    }

    /** Current discrete game time in ms. */
    function GetSteppedTime(): (ms: real)
      reads this
      ensures ms == ticks as real * timestep
    {
      ticks as real * timestep
    }

    /** Continuous game time in ms since the start, and the progress towards the next tick: 0 one
        timestep before the deadline, 1 at the deadline. */
    function GetCurrentTime(now: real): (r: (real, real))
      reads this
      ensures r.0 == now - startTime
      ensures now == nextTick - timestep ==> r.1 == 0.0
      ensures now == nextTick ==> r.1 == 1.0
    {
      (now - startTime, 1.0 - (nextTick - now) / timestep)
    }

    /** Whole seconds until `tick`, rounded up. */
    function SecondsUntil(tick: int): (s: int)
      reads this
      ensures var exact := (tick - ticks) as real * (timestep / 1000.0);
        s as real - 1.0 < exact <= s as real
    {
      Ceil((tick - ticks) as real * (timestep / 1000.0))
    }
  }

}
