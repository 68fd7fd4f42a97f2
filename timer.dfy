// Model of GameTimer (GameTimer.h, GameTimer.cpp): a pausable frame timer
// driven by the performance counter. Every reading of the counter is a
// parameter `now` of the operation that takes it, and times are kept in
// counter ticks ("counts"): the source multiplies by the positive factor
// mSecondsPerCount only to report seconds, which changes neither the sign of
// a delta nor the clamp applied to it.

module Timer {

  /** The seven fields of a GameTimer, in counts. */
  datatype TimerState = TimerState(
    baseTime: int,    // mBaseTime: counter value at Reset
    pausedTime: int,  // mPausedTime: total counts spent stopped
    prevTime: int,    // mPrevTime: reading of the previous Tick
    currTime: int,    // mCurrTime: reading of the latest Tick
    stopTime: int,    // mStopTime: reading at Stop, 0 while running
    stopped: bool,    // mStopped
    delta: int        // mDeltaTime, in counts
  )

  /**
   * What every operation keeps true: a running timer has no stop time.
   * The constructor, Reset and Start all leave mStopTime at 0, and only
   * Stop, which also sets mStopped, writes another value.
   */
  predicate TimerValid(s: TimerState) {
    !s.stopped ==> s.stopTime == 0
  }

  /**
   * The state the constructor leaves: every counter 0, running, and a delta
   * of -1.0 seconds, which is -countsPerSec counts.
   */
  function Initial(countsPerSec: int): (s: TimerState)
    requires countsPerSec > 0
    ensures TimerValid(s) && !s.stopped && s.delta < 0
  {
    TimerState(0, 0, 0, 0, 0, false, -countsPerSec)
  }

  /** TotalTime in counts: time since Reset minus the time spent stopped. */
  function TotalCounts(s: TimerState): int {
    if s.stopped then s.stopTime - s.pausedTime - s.baseTime
    else s.currTime - s.pausedTime - s.baseTime
  }

  /** Reset(now): restart the base and the previous reading at `now`. */
  function AfterReset(s: TimerState, now: int): TimerState {
    s.(baseTime := now, prevTime := now, stopTime := 0, stopped := false)
  }

  /** Start(now): resume a stopped timer, counting the pause as paused time. */
  function AfterStart(s: TimerState, now: int): TimerState {
    if s.stopped then
      s.(pausedTime := s.pausedTime + (now - s.stopTime), prevTime := now, currTime := now,
         stopTime := 0, stopped := false)
    else s
  }

  /** Stop(now): freeze a running timer at `now`. */
  function AfterStop(s: TimerState, now: int): TimerState {
    if !s.stopped then s.(stopTime := now, stopped := true) else s
  }

  /** Tick(now): a stopped timer reports a zero delta; a running one measures and clamps. */
  function AfterTick(s: TimerState, now: int): TimerState {
    if s.stopped then s.(delta := 0)
    else
      var d := now - s.prevTime;
      s.(currTime := now, prevTime := now, delta := if d < 0 then 0 else d)
  }

  /** A run of Ticks, one per reading, in order. */
  function TickAll(s: TimerState, readings: seq<int>): TimerState
    decreases |readings|
  {
    if readings == [] then s else TickAll(AfterTick(s, readings[0]), readings[1..])
  }

  // ---------------------------------------------------------------- properties

  /** Every operation keeps TimerValid. */
  lemma OperationsKeepValid(s: TimerState, now: int)
    requires TimerValid(s)
    ensures TimerValid(AfterReset(s, now))
    ensures TimerValid(AfterStart(s, now))
    ensures TimerValid(AfterStop(s, now))
    ensures TimerValid(AfterTick(s, now))
  {
  }

  /** Reset sets base and previous reading to `now`, runs, clears the stop time, keeps the paused time. */
  lemma ResetEffect(s: TimerState, now: int)
    ensures var t := AfterReset(s, now);
      t.baseTime == now && t.prevTime == now && !t.stopped && t.stopTime == 0 &&
      t.pausedTime == s.pausedTime && t.currTime == s.currTime && t.delta == s.delta
  {
  }

  /** Tick while stopped sets the delta to 0 and changes nothing else. */
  lemma TickWhileStopped(s: TimerState, now: int)
    requires s.stopped
    ensures AfterTick(s, now) == s.(delta := 0)
  {
  }

  /**
   * Tick while running stores the reading as both current and previous time,
   * and the delta is the elapsed count when the clock went forward and 0 when
   * it went backwards: never negative.
   */
  lemma TickWhileRunning(s: TimerState, now: int)
    requires !s.stopped
    ensures var t := AfterTick(s, now);
      t.currTime == now && t.prevTime == now && t.delta >= 0 &&
      (now >= s.prevTime ==> t.delta == now - s.prevTime) &&
      (now < s.prevTime ==> t.delta == 0) &&
      t == s.(currTime := now, prevTime := now, delta := t.delta)
  {
  }

  /** A second Stop changes nothing, whatever the new reading. */
  lemma StopIdempotent(s: TimerState, first: int, second: int)
    ensures AfterStop(AfterStop(s, first), second) == AfterStop(s, first)
  {
  }

  /** Start on a running timer is a no-op. */
  lemma StartWhileRunning(s: TimerState, now: int)
    requires !s.stopped
    ensures AfterStart(s, now) == s
  {
  }

  /**
   * Start after Stop adds the length of the pause to the paused time, sets
   * both readings to the start time, clears the stop time and runs again.
   */
  lemma StartAfterStop(s: TimerState, stopAt: int, startAt: int)
    requires !s.stopped
    ensures var t := AfterStart(AfterStop(s, stopAt), startAt);
      t.pausedTime == s.pausedTime + (startAt - stopAt) &&
      t.prevTime == startAt && t.currTime == startAt &&
      t.stopTime == 0 && !t.stopped &&
      t.baseTime == s.baseTime && t.delta == s.delta
  {
  }

  /**
   * Start always leaves a running timer with no stop time: from a stopped
   * timer by clearing both, and on a running one because the invariant already
   * holds there.
   */
  lemma StartLeavesRunning(s: TimerState, now: int)
    requires TimerValid(s)
    ensures !AfterStart(s, now).stopped && AfterStart(s, now).stopTime == 0
  {
  }

  /** TotalTime does not jump on resume: right after Start it equals its value while stopped. */
  lemma TotalContinuousAcrossStart(s: TimerState, now: int)
    requires s.stopped
    ensures TotalCounts(AfterStart(s, now)) == TotalCounts(s) == s.stopTime - s.pausedTime - s.baseTime
  {
  }

  /** TotalTime does not jump on Stop either, provided the timer had ticked up to the stop reading. */
  lemma TotalContinuousAcrossStop(s: TimerState, now: int)
    requires !s.stopped && s.currTime == now
    ensures TotalCounts(AfterStop(s, now)) == TotalCounts(s)
  {
  }

  /**
   * While stopped, TotalTime stays where it is however many Ticks occur, and
   * the Ticks change nothing but the delta (which they set to 0).
   */
  lemma {:induction false} TotalFrozenWhileStopped(s: TimerState, readings: seq<int>)
    requires s.stopped
    ensures TotalCounts(TickAll(s, readings)) == TotalCounts(s)
    ensures |readings| > 0 ==> TickAll(s, readings) == s.(delta := 0)
    decreases |readings|
  {
    if readings != [] {
      var t := AfterTick(s, readings[0]);
      TotalFrozenWhileStopped(t, readings[1..]);
    }
  }

  /**
   * The previous and current readings agree after a running Tick and after a
   * Start that resumed a stopped timer. Reset does not give this: it writes
   * mPrevTime but not mCurrTime.
   */
  lemma ReadingsAgree(s: TimerState, now: int)
    ensures !s.stopped ==> AfterTick(s, now).prevTime == AfterTick(s, now).currTime
    ensures s.stopped ==> AfterStart(s, now).prevTime == AfterStart(s, now).currTime
  {
  }

  /**
   * On a running timer whose previous and current readings agree (after a
   * running Tick, or after a Start that resumed a stopped timer; not the first
   * Tick after Reset), a forward Tick advances TotalTime by exactly the delta
   * it reports.
   */
  lemma TickAdvancesTotalByDelta(s: TimerState, now: int)
    requires !s.stopped && s.prevTime == s.currTime && now >= s.currTime
    ensures TotalCounts(AfterTick(s, now)) == TotalCounts(s) + AfterTick(s, now).delta
  {
  }

  /**
   * The first forward Tick after Reset at `r` reports a delta of now - r, and
   * TotalTime is then now - r less the paused time, which Reset keeps. Before
   * that Tick TotalTime still uses the stale mCurrTime, so it can jump by more
   * than the delta (see ResetTickExample).
   */
  lemma FirstTickAfterReset(s: TimerState, r: int, now: int)
    requires now >= r
    ensures var t := AfterTick(AfterReset(s, r), now);
      t.delta == now - r && TotalCounts(t) == now - r - s.pausedTime
  {
  }

  /**
   * The first frame of the application: a fresh timer is Reset at 100, the
   * first activation's Start at 150 changes nothing, and the Tick at 200
   * reports a delta of 100 while TotalTime rises by 200.
   */
  lemma ResetTickExample()
    ensures var s := AfterStart(AfterReset(Initial(10), 100), 150);
      var t := AfterTick(s, 200);
      t.delta == 100 && TotalCounts(t) == TotalCounts(s) + 200
  {
  }

  /**
   * The first Tick after resuming measures from the resume reading, not from
   * the last Tick before the pause: Start sets mPrevTime to the start time.
   */
  lemma FirstTickAfterResume(s: TimerState, stopAt: int, startAt: int, now: int)
    requires !s.stopped && now >= startAt
    ensures AfterTick(AfterStart(AfterStop(s, stopAt), startAt), now).delta == now - startAt
  {
  }

  /** The GameTimer object: the source's fields, updated in place by its methods. */
  class GameTimer {
    /** QueryPerformanceFrequency; mSecondsPerCount is its reciprocal. */
    const countsPerSec: int

    var baseTime: int
    var pausedTime: int
    var prevTime: int
    var currTime: int
    var stopTime: int
    var stopped: bool
    /** mDeltaTime, in counts. */
    var deltaTime: int

    /** The fields as one value, for the specification functions above. */
    function State(): TimerState
      reads this
    {
      TimerState(baseTime, pausedTime, prevTime, currTime, stopTime, stopped, deltaTime)
    }

    ghost predicate Valid()
      reads this
    {
      countsPerSec > 0 && TimerValid(State())
    }

    constructor (countsPerSec: int)
      requires countsPerSec > 0
      ensures Valid() && this.countsPerSec == countsPerSec
      ensures State() == Initial(countsPerSec)
    {
      this.countsPerSec := countsPerSec;
      baseTime, pausedTime, prevTime, currTime, stopTime := 0, 0, 0, 0, 0;
      stopped := false;
      deltaTime := -countsPerSec;
    }

    /** TotalTime, in counts. */
    function TotalTime(): int
      reads this
    {
      TotalCounts(State())
    }

    /** DeltaTime, in counts. */
    function DeltaTime(): int
      reads this
    {
      deltaTime
    }

    method Reset(now: int)
      requires Valid()
      modifies this
      ensures Valid() && State() == AfterReset(old(State()), now)
    {
      baseTime := now;
      prevTime := now;
      stopTime := 0;
      stopped := false;
    }

    method Start(now: int)
      requires Valid()
      modifies this
      ensures Valid() && State() == AfterStart(old(State()), now)
      ensures !stopped && stopTime == 0
      ensures TotalTime() == old(TotalTime()) || !old(stopped)
    {
      if stopped {
        pausedTime := pausedTime + (now - stopTime);
        prevTime := now;
        currTime := now;
        stopTime := 0;
        stopped := false;
      }
    }

    method Stop(now: int)
      requires Valid()
      modifies this
      ensures Valid() && State() == AfterStop(old(State()), now)
    {
      if !stopped {
        stopTime := now;
        stopped := true;
      }
    }

    method Tick(now: int)
      requires Valid()
      modifies this
      ensures Valid() && State() == AfterTick(old(State()), now)
      ensures DeltaTime() >= 0
    {
      if stopped {
        deltaTime := 0;
        return;
      }
      currTime := now;
      deltaTime := currTime - prevTime;
      prevTime := currTime;
      if deltaTime < 0 {
        deltaTime := 0;
      }
    }
  }
}
