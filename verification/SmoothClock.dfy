/** The smoothed PCR/PTS timeline of the MPEG-TS multiplexer.

    Frames may reach the multiplexer in bursts.  Each one is stamped one period
    after the previous one; the period follows the average interval between the
    frames, and the timeline is pulled towards the clock by a sixteenth of the
    drift.  Clocks are 32-bit tick counters at 90 kHz that wrap; differences are
    read as signed 32-bit numbers; divisions truncate towards zero. */
module SmoothClock {
  import opened Arithmetic

  const MODULUS: int := 0x1_0000_0000
  const HALF: int := 0x8000_0000
  /** 200 ms. */
  const MAX_DRIFT: int := 18000
  const SECOND: int := 90000

  type Tick = t: int | 0 <= t < MODULUS

  /** A result stored into an unsigned 32-bit counter. */
  function Wrap(x: int): Tick {
    x % MODULUS
  }

  /** An unsigned 32-bit difference read as a signed number. */
  function Signed(x: int): (d: int)
    ensures -HALF <= d < HALF
  {
    if x % MODULUS < HALF then x % MODULUS else x % MODULUS - MODULUS
  }

  /** Division by 16, towards zero. */
  function Sixteenth(x: int): int {
    if x >= 0 then x / 16 else -(-x / 16)
  }

  /** `period` is the step of the timeline, 0 while unknown; `lastclock` is 0
      before the first frame. */
  datatype State = State(lastclock: Tick, smoothclock: Tick, period: int)

  function StartPeriod(fps: Tick): int {
    if fps > 0 then SECOND / fps else 0
  }

  function Averaged(period: int, interval: int): int {
    if 0 < interval < MAX_DRIFT then
      if period == 0 then interval else period + Sixteenth(interval - period)
    else
      period
  }

  /** How far the clock is ahead of where the timeline would go next. */
  function Drift(s: State, period: int, clock: Tick): int {
    Signed(clock - Wrap(s.smoothclock + period))
  }

  function Advanced(s: State, next: Tick): Tick {
    if Signed(next - s.smoothclock) <= 0 then Wrap(s.smoothclock + 1) else next
  }

  function NextPeriod(fps: Tick, s: State, clock: Tick): int {
    if s.lastclock == 0 then StartPeriod(fps) else Averaged(s.period, Signed(clock - s.lastclock))
  }

  /** One frame at the given clock; the stamp of the frame is the new `smoothclock`. */
  function Step(fps: Tick, s: State, clock: Tick): State {
    var period := NextPeriod(fps, s, clock);
    var stamp: Tick :=
      if s.lastclock == 0 then clock
      else if period <= 0 then Advanced(s, clock)
      else
        var drift := Drift(s, period, clock);
        if Abs(drift) > MAX_DRIFT then clock
        else Advanced(s, Wrap(s.smoothclock + period + Sixteenth(drift)));
    State(clock, stamp, period)
  }

  /** The device fields behind the timeline. */
  class Smoother {
    const fps: Tick
    var lastclock: Tick
    var smoothclock: Tick
    var period: int

    constructor (fps: Tick)
      ensures this.fps == fps && View() == State(0, 0, 0)
    {
      this.fps := fps;
      lastclock, smoothclock, period := 0, 0, 0;
    }

    ghost function View(): State
      reads this
    {
      State(lastclock, smoothclock, period)
    }

    method Smooth(clock: Tick) returns (stamp: Tick)
      modifies this
      ensures View() == Step(fps, old(View()), clock)
      ensures stamp == smoothclock
    {
      hide Wrap, Signed;
      if lastclock == 0 {
        period := if fps > 0 then SECOND / fps else 0;
        lastclock := clock;
        smoothclock := clock;
        return clock;
      }
      var interval := Signed(clock - lastclock);
      lastclock := clock;
      if 0 < interval < MAX_DRIFT {
        if period == 0 {
          period := interval;
        } else {
          period := period + Sixteenth(interval - period);
        }
      }
      var next: Tick := clock;
      if period > 0 {
        next := Wrap(smoothclock + period);
        var drift := Signed(clock - next);
        if drift > MAX_DRIFT || drift < -MAX_DRIFT {
          smoothclock := clock;
          return clock;
        }
        WrapEarly(smoothclock + period, Sixteenth(drift));
        next := Wrap(next + Sixteenth(drift));
      }
      if Signed(next - smoothclock) <= 0 {
        next := Wrap(smoothclock + 1);
      }
      smoothclock := next;
      return next;
    }
  }

  // ----- Wrapping arithmetic -----

  lemma UniqueResidue(x: int, k: int, r: int)
    requires x == k * MODULUS + r && 0 <= r < MODULUS
    ensures x % MODULUS == r
  {}

  lemma SameResidue(x: int, y: int, k: int)
    requires x == y + k * MODULUS
    ensures Wrap(x) == Wrap(y) && Signed(x) == Signed(y)
  {
    UniqueResidue(x, y / MODULUS + k, y % MODULUS);
  }

  /** Wrapping early or late makes no difference. */
  lemma WrapEarly(x: int, y: int)
    ensures Wrap(Wrap(x) + y) == Wrap(x + y)
    ensures Signed(Wrap(x) - y) == Signed(x - y)
    ensures Signed(y - Wrap(x)) == Signed(y - x)
  {
    var k := x / MODULUS;
    SameResidue(x + y, Wrap(x) + y, k);
    SameResidue(x - y, Wrap(x) - y, k);
    SameResidue(y - x, y - Wrap(x), -k);
  }

  lemma SignedOfSmall(x: int)
    requires -HALF <= x < HALF
    ensures Signed(x) == x
  {
    UniqueResidue(x, if x < 0 then -1 else 0, if x < 0 then x + MODULUS else x);
  }

  /** The signed reading is the number itself up to whole turns. */
  lemma SignedTurns(x: int) returns (k: int)
    ensures Signed(x) == x + k * MODULUS
  {
    k := if x % MODULUS < HALF then -(x / MODULUS) else -(x / MODULUS) - 1;
  }

  // ----- Safety of the timeline -----

  predicate KnownPeriod(period: int) {
    1 <= period <= SECOND
  }

  lemma QuotientInRange(n: nat, d: nat)
    requires 1 <= d <= n
    ensures 1 <= n / d <= n
  {
    var q := n / d;
    assert n == q * d + n % d;
    AtMost(1, d, q);
  }

  lemma QuotientOfLess(n: nat, d: nat)
    requires n < d
    ensures n / d == 0
  {}

  lemma RateInRange(fps: Tick)
    ensures if 1 <= fps <= SECOND then KnownPeriod(StartPeriod(fps)) else StartPeriod(fps) == 0
  {
    var second: nat := SECOND;
    if fps > second {
      QuotientOfLess(second, fps);
    } else if fps > 0 {
      QuotientInRange(second, fps);
    }
  }

  /** A known period stays known, except that a clock of exactly 0 makes the next
      frame look like the first one: then the configured rate decides. */
  lemma PeriodStaysKnown(fps: Tick, s: State, clock: Tick)
    requires KnownPeriod(s.period)
    ensures KnownPeriod(Step(fps, s, clock).period) <==> s.lastclock != 0 || 1 <= fps <= SECOND
  {
    hide Signed, Wrap, Advanced, Drift, StartPeriod;
    RateInRange(fps);
  }

  /** The first frame gets its own clock, and starts with as many ticks as a frame has at
      the configured rate. */
  lemma FirstFrameStarts(fps: Tick, s: State, clock: Tick)
    requires s.lastclock == 0
    ensures var t := Step(fps, s, clock);
      && t.smoothclock == t.lastclock == clock
      && (fps == 0 ==> t.period == 0)
      && (fps > 0 ==> t.period * fps <= SECOND < (t.period + 1) * fps)
  {
    hide Averaged;
    if fps > 0 {
      RateDivides(fps);
    }
  }

  lemma RateDivides(fps: Tick)
    requires fps > 0
    ensures StartPeriod(fps) * fps <= SECOND < (StartPeriod(fps) + 1) * fps
  {
    var q := StartPeriod(fps);
    assert SECOND == q * fps + SECOND % fps;
  }

  /** Behind the first frame, an interval that is not in 1..17999 changes no period; any
      other one becomes the period if none is known, and moves it a sixteenth of the
      way, towards zero, if one is. */
  lemma PeriodFollows(fps: Tick, s: State, clock: Tick)
    requires s.lastclock != 0
    ensures var interval, period := Signed(clock - s.lastclock), Step(fps, s, clock).period;
      if !(0 < interval < 18000) then period == s.period
      else if s.period == 0 then period == interval
      else
        && 16 * Abs(period - s.period) <= Abs(interval - s.period) < 16 * Abs(period - s.period) + 16
        && (period - s.period) * (interval - s.period) >= 0
  {
    hide Signed, Wrap, Drift, Advanced;
    var interval := Signed(clock - s.lastclock);
    SixteenthIsPart(interval - s.period);
  }

  lemma SixteenthIsPart(x: int)
    ensures 16 * Abs(Sixteenth(x)) <= Abs(x) < 16 * Abs(Sixteenth(x)) + 16 && Sixteenth(x) * x >= 0
  {
    if x < 0 {
      assert Sixteenth(x) <= 0;
    }
  }

  /** Every stamp given while a period is known is within 200 ms of the clock. */
  lemma StampNearClock(fps: Tick, s: State, clock: Tick)
    requires KnownPeriod(NextPeriod(fps, s, clock))
    ensures Abs(Signed(clock - Step(fps, s, clock).smoothclock)) <= MAX_DRIFT
  {
    hide Wrap, Signed;
    var period := NextPeriod(fps, s, clock);
    var drift := Drift(s, period, clock);
    if s.lastclock != 0 && Abs(drift) <= MAX_DRIFT {
      StampOfSmallDrift(s, period, clock);
    } else {
      SignedOfSmall(0);
    }
  }

  lemma StampOfSmallDrift(s: State, period: int, clock: Tick)
    requires KnownPeriod(period) && Abs(Drift(s, period, clock)) <= MAX_DRIFT
    ensures var drift := Drift(s, period, clock);
            var stamp := Advanced(s, Wrap(s.smoothclock + period + Sixteenth(drift)));
            && Signed(stamp - s.smoothclock) == (if period + Sixteenth(drift) <= 0 then 1 else period + Sixteenth(drift))
            && Signed(clock - stamp) == drift + period - Signed(stamp - s.smoothclock)
  {
    hide Wrap, Signed;
    var drift := Drift(s, period, clock);
    var move := period + Sixteenth(drift);
    MoveBy(s.smoothclock, move);
    MoveBy(s.smoothclock, 1);
    DistanceAfterMove(s.smoothclock, period, clock, move);
    DistanceAfterMove(s.smoothclock, period, clock, 1);
  }

  lemma MoveBy(from: Tick, move: int)
    requires -HALF <= move < HALF
    ensures Signed(Wrap(from + move) - from) == move
  {
    hide Wrap, Signed;
    WrapEarly(from + move, from);
    SignedOfSmall(move);
  }

  /** The distance to the clock after another move than the planned one. */
  lemma DistanceAfterMove(from: Tick, planned: int, clock: Tick, move: int)
    requires var d := Signed(clock - Wrap(from + planned)) + planned - move; -HALF <= d < HALF
    ensures Signed(clock - Wrap(from + move)) == Signed(clock - Wrap(from + planned)) + planned - move
  {
    hide Wrap, Signed;
    WrapEarly(from + planned, clock);
    WrapEarly(from + move, clock);
    var k := SignedTurns(clock - (from + planned));
    SameResidue(Signed(clock - Wrap(from + planned)) + planned - move, clock - (from + move), k);
    SignedOfSmall(Signed(clock - Wrap(from + planned)) + planned - move);
  }

  /** Whatever the rate and the clocks, no period is above a second. */
  lemma PeriodIsBounded(fps: Tick, s: State, clock: Tick)
    requires s.period <= SECOND
    ensures Step(fps, s, clock).period <= SECOND
  {
    hide Signed, Wrap, Advanced, Drift, StartPeriod;
    RateInRange(fps);
  }

  /** The stamp fails to advance exactly when it is thrown back to a clock that is
      not ahead of the previous stamp: on a drift beyond 200 ms from a known period,
      or because the clock of the frame before read 0. */
  lemma TimelineGoesBack(fps: Tick, s: State, clock: Tick)
    requires s.period <= SECOND
    ensures var period := NextPeriod(fps, s, clock);
            Signed(Step(fps, s, clock).smoothclock - s.smoothclock) <= 0
            <==> (s.lastclock == 0 || (period > 0 && Abs(Drift(s, period, clock)) > MAX_DRIFT))
                 && Signed(clock - s.smoothclock) <= 0
  {
    PeriodIsBounded(fps, s, clock);
    hide Wrap, Signed;
    var period := NextPeriod(fps, s, clock);
    if period > 0 && Abs(Drift(s, period, clock)) <= MAX_DRIFT {
      StampOfSmallDrift(s, period, clock);
    } else {
      MoveBy(s.smoothclock, 1);
    }
  }

  // ----- Convergence under a constant interval -----

  /** How far the timeline lags behind the clock after a frame. */
  function Lag(s: State): int {
    Signed(s.lastclock - s.smoothclock)
  }

  ghost predicate Running(s: State) {
    KnownPeriod(s.period) && Abs(Lag(s)) <= MAX_DRIFT
  }

  /** The next frame of a source that delivers one every `interval` ticks. */
  function Regular(fps: Tick, s: State, interval: int): State {
    Step(fps, s, Wrap(s.lastclock + interval))
  }

  function After(fps: Tick, s: State, interval: int, frames: nat): State
    decreases frames
  {
    if frames == 0 then s else After(fps, Regular(fps, s, interval), interval, frames - 1)
  }

  /** One regular frame in plain integers. */
  lemma RegularFrame(fps: Tick, s: State, interval: int)
    requires Running(s) && s.lastclock != 0 && 0 < interval < MAX_DRIFT
    ensures var t := Regular(fps, s, interval);
            var period := s.period + Sixteenth(interval - s.period);
            var drift := Lag(s) + interval - period;
            && t.period == period && KnownPeriod(period)
            && Lag(t) == (if Abs(drift) > MAX_DRIFT then 0
                          else if period + Sixteenth(drift) <= 0 then Lag(s) + interval - 1
                          else drift - Sixteenth(drift))
  {
    hide Wrap, Signed;
    var clock := Wrap(s.lastclock + interval);
    MoveBy(s.lastclock, interval);
    var period := s.period + Sixteenth(interval - s.period);
    RegularDrift(s, interval, period);
    if Abs(Drift(s, period, clock)) <= MAX_DRIFT {
      StampOfSmallDrift(s, period, clock);
    } else {
      SignedOfSmall(0);
    }
  }

  lemma RegularDrift(s: State, interval: int, period: int)
    requires Abs(Lag(s)) <= MAX_DRIFT && 0 < interval < MAX_DRIFT && KnownPeriod(period)
    ensures Drift(s, period, Wrap(s.lastclock + interval)) == Lag(s) + interval - period
  {
    hide Wrap, Signed;
    var clock := Wrap(s.lastclock + interval);
    WrapEarly(s.smoothclock + period, clock);
    WrapEarly(s.lastclock + interval, s.smoothclock + period);
    var k := SignedTurns(s.lastclock - s.smoothclock);
    SameResidue(Lag(s) + interval - period, s.lastclock + interval - (s.smoothclock + period), k);
    SignedOfSmall(Lag(s) + interval - period);
  }

  /** The period is within 15 ticks of the interval and the timeline within 240
      ticks of the clock: the truncating divisions cannot see less. */
  predicate Settled(s: State, interval: int) {
    Abs(s.period - interval) <= 15 && Abs(Lag(s)) <= 240
  }

  /** The clock is never read as 0 before one of the next frames. */
  ghost predicate NeverZero(clock: Tick, interval: int, frames: nat)
    decreases frames
  {
    frames == 0 || (clock != 0 && NeverZero(Wrap(clock + interval), interval, frames - 1))
  }

  // The worst error of the period, and then of the timeline, frame by frame.

  function Shrink(error: nat, frames: nat): nat
    decreases frames
  {
    if frames == 0 then error else Shrink(error - error / 16, frames - 1)
  }

  function Close(lag: nat, frames: nat): nat
    decreases frames
  {
    if frames == 0 then lag else Close(lag + 15 - (lag + 15) / 16, frames - 1)
  }

  lemma {:induction false} WorseStartWorseEnd(a: nat, b: nat, frames: nat)
    requires a <= b
    ensures Shrink(a, frames) <= Shrink(b, frames) && Close(a, frames) <= Close(b, frames)
    decreases frames
  {
    if frames > 0 {
      WorseStartWorseEnd(a - a / 16, b - b / 16, frames - 1);
      WorseStartWorseEnd(a + 15 - (a + 15) / 16, b + 15 - (b + 15) / 16, frames - 1);
    }
  }

  /** Thirteen halvings of 16 frames and one more. */
  const PERIOD_FRAMES: nat := 209
  /** Eleven halvings of 16 frames and 16 more. */
  const LAG_FRAMES: nat := 192

  lemma {:induction false} Chain(error: nat, lag: nat, m: nat, n: nat)
    ensures Shrink(error, m + n) == Shrink(Shrink(error, m), n)
    ensures Close(lag, m + n) == Close(Close(lag, m), n)
    decreases m
  {
    if m > 0 {
      Chain(error - error / 16, lag + 15 - (lag + 15) / 16, m - 1, n);
    }
  }

  /** Above 16k every frame takes at least k away. */
  lemma {:induction false} Drops(error: nat, excess: nat, k: nat, frames: nat)
    requires k > 0 && error <= 16 * k + k * frames && excess <= 16 * k + k * frames
    ensures Shrink(error, frames) <= 16 * k
    ensures Close(240 + excess, frames) <= 240 + 16 * k
    decreases frames
  {
    if frames > 0 {
      assert k * frames == k * (frames - 1) + k;
      var next := excess - (excess + 15) / 16;
      assert (240 + excess + 15) / 16 == 15 + (excess + 15) / 16;
      if error >= 16 * k { DividesDown(error, k); }
      if excess >= 16 * k { DividesDown(excess + 15, k); }
      Drops(error - error / 16, next, k, frames - 1);
    }
  }

  lemma DividesDown(x: nat, k: nat)
    requires x >= 16 * k
    ensures x / 16 >= k
  {}

  lemma {:induction false} Halvings(error: nat, excess: nat, n: nat)
    requires error <= 16 * Pow2(n) && excess <= 16 * Pow2(n)
    ensures Shrink(error, 16 * n) <= 16
    ensures Close(240 + excess, 16 * n) <= 240 + 16
    decreases n
  {
    hide Shrink, Close;
    if n == 0 {
      NoFrames(error, 240 + excess);
    } else {
      Drops(error, excess, Pow2(n - 1), 16);
      var lag := Close(240 + excess, 16);
      Chain(error, 240 + excess, 16, 16 * (n - 1));
      WorseStartWorseEnd(lag, if lag < 240 then 240 else lag, 16 * (n - 1));
      Halvings(Shrink(error, 16), if lag < 240 then 0 else lag - 240, n - 1);
    }
  }

  lemma {:induction false} SmallStaysSmall(error: nat, excess: nat, frames: nat)
    ensures error <= 16 && frames >= 1 ==> Shrink(error, frames) <= 15
    ensures excess <= frames && excess <= 16 ==> Close(240 + excess, frames) <= 240
    decreases frames
  {
    if frames > 0 {
      if error == 16 { SmallPeriod(15, frames - 1); } else if error < 16 { SmallPeriod(error, frames - 1); }
      SmallStaysSmall(0, if excess == 0 then 0 else excess - 1, frames - 1);
    }
  }

  lemma {:induction false} SmallPeriod(error: nat, frames: nat)
    requires error <= 15
    ensures Shrink(error, frames) == error
    decreases frames
  {
    if frames > 0 {
      SmallPeriod(error, frames - 1);
    }
  }

  lemma NoFrames(error: nat, lag: nat)
    ensures Shrink(error, 0) == error && Close(lag, 0) == lag
  {}

  lemma WorstPeriod(frames: nat)
    requires PERIOD_FRAMES <= frames
    ensures Shrink(SECOND, frames) <= 15
  {
    hide Shrink, Close;
    assert Pow2(13) == 8192;
    Halvings(SECOND, 0, 13);
    Chain(SECOND, 0, 208, frames - 208);
    SmallStaysSmall(Shrink(SECOND, 208), 0, frames - 208);
  }

  lemma WorstLag(frames: nat)
    requires LAG_FRAMES <= frames
    ensures Close(MAX_DRIFT, frames) <= 240
  {
    hide Shrink, Close;
    assert Pow2(11) == 2048;
    Halvings(0, MAX_DRIFT - 240, 11);
    Chain(0, MAX_DRIFT, 176, frames - 176);
    var lag := Close(MAX_DRIFT, 176);
    WorseStartWorseEnd(lag, 256, frames - 176);
    SmallStaysSmall(0, 16, frames - 176);
  }

  lemma RegularFrameShrinks(fps: Tick, s: State, interval: int)
    requires Running(s) && s.lastclock != 0 && 1141 <= interval < MAX_DRIFT
    ensures var t, error, lag := Regular(fps, s, interval), Abs(s.period - interval), Abs(Lag(s));
            && Running(t) && t.lastclock == Wrap(s.lastclock + interval)
            && Abs(t.period - interval) == error - error / 16
            && (error <= 15 ==> Abs(Lag(t)) <= lag + 15 - (lag + 15) / 16)
  {
    hide Wrap, Signed;
    RegularFrame(fps, s, interval);
    StampNearClock(fps, s, Wrap(s.lastclock + interval));
  }

  lemma {:induction false} PeriodConverges(fps: Tick, s: State, interval: int, frames: nat)
    requires Running(s) && 1141 <= interval < MAX_DRIFT && NeverZero(s.lastclock, interval, frames)
    ensures var t := After(fps, s, interval, frames);
            Running(t) && Abs(t.period - interval) == Shrink(Abs(s.period - interval), frames)
    decreases frames
  {
    hide Regular, Wrap, Signed;
    if frames > 0 {
      RegularFrameShrinks(fps, s, interval);
      PeriodConverges(fps, Regular(fps, s, interval), interval, frames - 1);
    }
  }

  lemma {:induction false} LagConverges(fps: Tick, s: State, interval: int, frames: nat)
    requires Running(s) && 1141 <= interval < MAX_DRIFT && NeverZero(s.lastclock, interval, frames)
    requires Abs(s.period - interval) <= 15
    ensures var t := After(fps, s, interval, frames);
            Running(t) && Abs(t.period - interval) <= 15 && Abs(Lag(t)) <= Close(Abs(Lag(s)), frames)
    decreases frames
  {
    hide Regular, Wrap, Signed;
    if frames > 0 {
      var lag := Abs(Lag(s));
      RegularFrameShrinks(fps, s, interval);
      LagConverges(fps, Regular(fps, s, interval), interval, frames - 1);
      WorseStartWorseEnd(Abs(Lag(Regular(fps, s, interval))), lag + 15 - (lag + 15) / 16, frames - 1);
    }
  }

  lemma {:induction false} AfterSplit(fps: Tick, s: State, interval: int, m: nat, n: nat)
    ensures After(fps, s, interval, m + n) == After(fps, After(fps, s, interval, m), interval, n)
    ensures NeverZero(s.lastclock, interval, m + n) ==>
              NeverZero(s.lastclock, interval, m) && NeverZero(After(fps, s, interval, m).lastclock, interval, n)
    decreases m
  {
    hide Wrap, Signed;
    if m > 0 {
      AfterSplit(fps, Regular(fps, s, interval), interval, m - 1, n);
    }
  }

  /** From any running state, a source with a constant interval settles within
      401 frames, and stays settled as long as the clock is never read as 0. */
  lemma SettlesWithin(fps: Tick, s: State, interval: int, frames: nat)
    requires Running(s) && 1141 <= interval < MAX_DRIFT
    requires PERIOD_FRAMES + LAG_FRAMES <= frames && NeverZero(s.lastclock, interval, frames)
    ensures Settled(After(fps, s, interval, frames), interval)
  {
    hide After, NeverZero, Regular, Shrink, Close, Wrap, Signed;
    AfterSplit(fps, s, interval, PERIOD_FRAMES, frames - PERIOD_FRAMES);
    PeriodConverges(fps, s, interval, PERIOD_FRAMES);
    WorseStartWorseEnd(Abs(s.period - interval), SECOND, PERIOD_FRAMES);
    WorstPeriod(PERIOD_FRAMES);
    var t := After(fps, s, interval, PERIOD_FRAMES);
    LagConverges(fps, t, interval, frames - PERIOD_FRAMES);
    WorseStartWorseEnd(Abs(Lag(t)), MAX_DRIFT, frames - PERIOD_FRAMES);
    WorstLag(frames - PERIOD_FRAMES);
  }

  // ----- A clock that is read as 0 -----

  lemma {:induction false} NoZeroSoon(clock: Tick, interval: int, frames: nat)
    requires 0 < clock && 0 < interval < MAX_DRIFT && clock + MAX_DRIFT * frames < MODULUS
    ensures NeverZero(clock, interval, frames)
    decreases frames
  {
    if frames > 0 {
      UniqueResidue(clock + interval, 0, clock + interval);
      NoZeroSoon(clock + interval, interval, frames - 1);
    }
  }

  /** The frame before which the clock is first read as 0, if it is. */
  lemma {:induction false} FirstZero(fps: Tick, s: State, interval: int, frames: nat) returns (k: nat)
    ensures k <= frames && NeverZero(s.lastclock, interval, k)
    ensures k < frames ==> After(fps, s, interval, k).lastclock == 0
    decreases frames
  {
    hide Wrap, Signed;
    if frames == 0 || s.lastclock == 0 {
      k := 0;
    } else {
      var j := FirstZero(fps, Regular(fps, s, interval), interval, frames - 1);
      k := j + 1;
    }
  }

  /** A frame that is taken for the first one sets the timeline to the clock. */
  ghost predicate JustStarted(fps: Tick, s: State) {
    s.smoothclock == s.lastclock && s.period == StartPeriod(fps)
  }

  lemma StartedIsRunning(fps: Tick, s: State)
    requires JustStarted(fps, s)
    ensures if 1 <= fps <= SECOND then Running(s) else s.period == 0
  {
    hide Wrap, Signed;
    SignedOfSmall(0);
    RateInRange(fps);
  }

  /** Without a configured rate, the next frame tells the interval. */
  lemma UnknownPeriodSettles(fps: Tick, s: State, interval: int)
    requires s.smoothclock == s.lastclock != 0 && s.period == 0 && 0 < interval < MAX_DRIFT
    ensures Settled(Regular(fps, s, interval), interval)
  {
    hide Wrap, Signed;
    var clock := Wrap(s.lastclock + interval);
    MoveBy(s.lastclock, interval);
    SignedOfSmall(0);
    assert Wrap(clock) == clock by { WrapEarly(s.lastclock + interval, 0); }
    StampOfSmallDrift(s, interval, clock);
  }

  /** From a frame behind which the clock is not 0 again for 401 frames. */
  lemma StartSettles(fps: Tick, s: State, interval: int) returns (n: nat)
    requires JustStarted(fps, s) && 1141 <= interval < MAX_DRIFT
    requires s.lastclock != 0 && NeverZero(s.lastclock, interval, PERIOD_FRAMES + LAG_FRAMES)
    ensures n <= PERIOD_FRAMES + LAG_FRAMES && Settled(After(fps, s, interval, n), interval)
  {
    hide Regular, NeverZero, Settled, Running, Wrap, Signed;
    StartedIsRunning(fps, s);
    if 1 <= fps <= SECOND {
      n := PERIOD_FRAMES + LAG_FRAMES;
      SettlesWithin(fps, s, interval, n);
    } else {
      n := 1;
      UnknownPeriodSettles(fps, s, interval);
    }
  }

  /** Behind a clock of 0, and on a fresh device whose first frame comes an interval
      later, the timeline settles within 402 frames, whatever it was before. */
  lemma SettlesAfterZero(fps: Tick, s: State, interval: int) returns (n: nat)
    requires s.lastclock == 0 && 1141 <= interval < MAX_DRIFT
    ensures n <= 402 && Settled(After(fps, s, interval, n), interval)
  {
    hide NeverZero, Settled, Signed;
    var t := Regular(fps, s, interval);
    UniqueResidue(interval, 0, interval);
    NoZeroSoon(interval, interval, PERIOD_FRAMES + LAG_FRAMES);
    var m := StartSettles(fps, t, interval);
    n := m + 1;
  }

  /** The first of two runs of frames ends on a clock of 0, or settles. */
  lemma ZeroOrSettled(fps: Tick, s: State, interval: int, settles: nat) returns (n: nat)
    requires 1141 <= interval < MAX_DRIFT && settles <= PERIOD_FRAMES + LAG_FRAMES
    requires NeverZero(s.lastclock, interval, PERIOD_FRAMES + LAG_FRAMES) ==>
               Settled(After(fps, s, interval, settles), interval)
    ensures n <= 803 && Settled(After(fps, s, interval, n), interval)
  {
    hide NeverZero, Settled, Signed, Wrap, After;
    var k := FirstZero(fps, s, interval, PERIOD_FRAMES + LAG_FRAMES);
    if k == PERIOD_FRAMES + LAG_FRAMES {
      n := settles;
    } else {
      var m := SettlesAfterZero(fps, After(fps, s, interval, k), interval);
      AfterSplit(fps, s, interval, k, m);
      n := k + m;
    }
  }

  /** From any running state, a source with a constant interval settles at some frame,
      whatever clocks are read as 0 on the way. */
  lemma EventuallySettles(fps: Tick, s: State, interval: int) returns (n: nat)
    requires Running(s) && 1141 <= interval < MAX_DRIFT
    ensures n <= 803 && Settled(After(fps, s, interval, n), interval)
  {
    hide NeverZero, Settled, Running, Signed, Wrap, After;
    var frames := PERIOD_FRAMES + LAG_FRAMES;
    if NeverZero(s.lastclock, interval, frames) {
      SettlesWithin(fps, s, interval, frames);
    }
    n := ZeroOrSettled(fps, s, interval, frames);
  }

  /** So does a device from its first frame on, at any clock and for any configured
      rate. */
  lemma FirstFrameSettles(fps: Tick, s: State, clock: Tick, interval: int) returns (n: nat)
    requires s.lastclock == 0 && 1141 <= interval < MAX_DRIFT
    ensures n <= 803 && Settled(After(fps, Step(fps, s, clock), interval, n), interval)
  {
    hide NeverZero, Settled, Signed, Wrap, After;
    var t := Step(fps, s, clock);
    var m := 0;
    if clock == 0 {
      n := SettlesAfterZero(fps, t, interval);
    } else {
      if NeverZero(clock, interval, PERIOD_FRAMES + LAG_FRAMES) {
        m := StartSettles(fps, t, interval);
      }
      n := ZeroOrSettled(fps, t, interval, m);
    }
  }

  /** A settled timeline stays settled for one more frame unless the last clock
      was read as 0 and the configured rate is not the rate of the source. */
  lemma SettledStays(fps: Tick, s: State, interval: int)
    requires Running(s) && Settled(s, interval) && 1141 <= interval < MAX_DRIFT
    ensures Settled(Regular(fps, s, interval), interval)
            <==> s.lastclock != 0 || Abs(StartPeriod(fps) - interval) <= 15
  {
    hide Wrap, Signed;
    if s.lastclock == 0 {
      SignedOfSmall(0);
    } else {
      RegularFrameShrinks(fps, s, interval);
    }
  }
}
