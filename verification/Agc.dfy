/** The automatic gain controller: every 30 statistics frames it measures one region,
    smooths the measure and moves the gain a third of the way, when it is off by more
    than 8; after a command it skips three measures.  The smoothed measure is a real
    number here. */
module Agc {
  import opened Arithmetic
  import opened Bytes

  const GAIN_AGC_PERIOD: nat := 30
  const AGC_EMA_ALPHA: real := 0.15
  const AGC_DEADBAND: nat := 8
  const AGC_STEP_DIVISOR: int := 3
  const AGC_MAX_STEP: int := 80
  const AGC_SETTLE_CYCLES: nat := 3
  const AGC_GAIN_MIN: int := 13
  const AGC_GAIN_MAX: int := 1010
  const GAIN_TOP: int := 1023
  const INT_BOUND: int := 0x8000_0000

  // ----- Arithmetic of the source -----

  /** The 32-bit signed number with the same low bits. */
  function ToInt32(x: int): (r: int)
    ensures -INT_BOUND <= r < INT_BOUND && (x - r) % 0x1_0000_0000 == 0
  {
    var m := x % 0x1_0000_0000;
    if m < INT_BOUND then m else m - 0x1_0000_0000
  }

  /** Division towards zero. */
  function Quotient(a: int, b: int): int
    requires b != 0
  {
    if (a >= 0) == (b > 0) then Abs(a) / Abs(b) else -(Abs(a) / Abs(b))
  }

  /** A real number cut to an integer, towards zero. */
  function Truncated(x: real): int {
    if x >= 0.0 then x.Floor else -(-x).Floor
  }

  function Clamp(gain: int): (g: int)
    ensures AGC_GAIN_MIN <= g <= AGC_GAIN_MAX
  {
    if gain < AGC_GAIN_MIN then AGC_GAIN_MIN else if gain > AGC_GAIN_MAX then AGC_GAIN_MAX else gain
  }

  // ----- The controller as a value -----

  datatype Region = Region(counted: nat, rSum: nat, gSum: nat, bSum: nat)

  /** The measure of a region that has pixels. */
  function RawGain(region: Region, ratio: int): (r: int)
    requires region.counted > 0 && ratio != 0
    ensures -INT_BOUND <= r < INT_BOUND
  {
    var sum := (region.rSum + region.gSum + region.bSum) % 0x1_0000_0000_0000_0000;
    var raw := ToInt32(Quotient(ToInt32(sum / region.counted), ratio));
    if region.counted < 100 then ToInt32(raw * 2) else raw
  }

  /** What a measure changes: the smoothed measure (`None` before the first) and the
      gain (-1 before the first command). */
  datatype Core = Core(ema: Option<real>, applied: int)

  function Smoothed(ema: Option<real>, raw: int): real {
    if ema.None? then raw as real else AGC_EMA_ALPHA * raw as real + (1.0 - AGC_EMA_ALPHA) * ema.value
  }

  /** The smoothed measure after this one, and the gain to go to. */
  function Targeted(core: Core, region: Region, ratio: int): (Core, int)
    requires region.counted > 0 ==> ratio != 0
  {
    if region.counted == 0 then
      (core, AGC_GAIN_MIN)
    else
      var ema := Smoothed(core.ema, RawGain(region, ratio));
      (core.(ema := Some(ema)), Clamp(Truncated(ema + 0.5)))
  }

  function StepFor(error: int): int {
    var step := Quotient(error, AGC_STEP_DIVISOR);
    if step > AGC_MAX_STEP then AGC_MAX_STEP else if step < -AGC_MAX_STEP then -AGC_MAX_STEP else step
  }

  /** A measure, with the gain applied when it leads to a command. */
  function Measured(core: Core, region: Region, ratio: int): (Core, Option<int>)
    requires region.counted > 0 ==> ratio != 0
  {
    var (next, target) := Targeted(core, region, ratio);
    if core.applied < 0 then
      (next.(applied := target), Some(target))
    else if Abs(target - core.applied) <= AGC_DEADBAND then
      (next, None)
    else
      var gain := Clamp(core.applied + StepFor(target - core.applied));
      (next.(applied := gain), Some(gain))
  }

  datatype State = State(core: Core, counter: nat, settle: nat)

  datatype Outcome = Outcome(state: State, command: Option<int>, ret: int)

  /** The frame is measured and its region has pixels: the code divides by the ratio. */
  predicate Divides(s: State, stats: seq<Region>, main: int) {
    s.counter + 1 >= GAIN_AGC_PERIOD && s.settle == 0 && 0 <= main < |stats| && stats[main].counted > 0
  }

  /** A statistics frame: the command is the value sent. */
  function Frame(s: State, stats: seq<Region>, main: int, ratio: int): Outcome
    requires Divides(s, stats, main) ==> ratio != 0
  {
    if s.counter + 1 < GAIN_AGC_PERIOD then
      Outcome(s.(counter := s.counter + 1), None, 0)
    else if s.settle > 0 then
      Outcome(s.(counter := 0, settle := s.settle - 1), None, 0)
    else if main < 0 || main >= |stats| then
      Outcome(s.(counter := 0), None, -1)
    else
      var (core, gain) := Measured(s.core, stats[main], ratio);
      if gain.None? then
        Outcome(State(core, 0, 0), None, 0)
      else
        Outcome(State(core, 0, AGC_SETTLE_CYCLES), Some(GAIN_TOP - gain.value), 0)
  }

  // ----- The controller as an object -----

  class Controller {
    const main: int
    const ratio: int
    var gainCounter: nat
    var ema: real
    var emaInitialized: bool
    var applied: int
    var settle: nat

    constructor (main: int, ratio: int)
      ensures this.main == main && this.ratio == ratio
      ensures View() == State(Core(None, -1), 0, 0)
    {
      this.main, this.ratio := main, ratio;
      gainCounter, ema, emaInitialized, applied, settle := 0, 0.0, false, -1, 0;
    }

    ghost function View(): State
      reads this
    {
      State(Core(if emaInitialized then Some(ema) else None, applied), gainCounter, settle)
    }

    /** Smooth the measure of a region: the gain to go to. */
    method Target(region: Region) returns (target: int)
      requires region.counted > 0 ==> ratio != 0
      modifies `ema, `emaInitialized
      ensures (View().core, target) == Targeted(old(View()).core, region, ratio)
    {
      hide ToInt32, Quotient, Truncated;
      if region.counted == 0 {
        target := AGC_GAIN_MIN;
      } else {
        var sum := (region.rSum + region.gSum + region.bSum) % 0x1_0000_0000_0000_0000;
        var raw := ToInt32(sum / region.counted);
        raw := ToInt32(Quotient(raw, ratio));
        if region.counted < 100 {
          raw := ToInt32(raw * 2);
        }
        if !emaInitialized {
          ema := raw as real;
          emaInitialized := true;
        } else {
          ema := AGC_EMA_ALPHA * raw as real + (1.0 - AGC_EMA_ALPHA) * ema;
        }
        target := Truncated(ema + 0.5);
      }
      if target < AGC_GAIN_MIN {
        target := AGC_GAIN_MIN;
      }
      if target > AGC_GAIN_MAX {
        target := AGC_GAIN_MAX;
      }
    }

    method Agc(stats: seq<Region>) returns (ret: int, command: Option<int>)
      requires Divides(View(), stats, main) ==> ratio != 0
      modifies this
      ensures Outcome(View(), command, ret) == Frame(old(View()), stats, main, ratio)
    {
      hide Targeted, Quotient, Abs;
      gainCounter := gainCounter + 1;
      if gainCounter < GAIN_AGC_PERIOD {
        return 0, None;
      }
      gainCounter := 0;
      if settle > 0 {
        settle := settle - 1;
        return 0, None;
      }
      if main < 0 || main >= |stats| {
        return -1, None;
      }
      var target := Target(stats[main]);
      if applied < 0 {
        applied := target;
        settle := AGC_SETTLE_CYCLES;
        return 0, Some(GAIN_TOP - applied);
      }
      var error := target - applied;
      if Abs(error) <= AGC_DEADBAND {
        return 0, None;
      }
      var step := Quotient(error, AGC_STEP_DIVISOR);
      if step > AGC_MAX_STEP {
        step := AGC_MAX_STEP;
      } else if step < -AGC_MAX_STEP {
        step := -AGC_MAX_STEP;
      }
      applied := applied + step;
      if applied < AGC_GAIN_MIN {
        applied := AGC_GAIN_MIN;
      }
      if applied > AGC_GAIN_MAX {
        applied := AGC_GAIN_MAX;
      }
      settle := AGC_SETTLE_CYCLES;
      return 0, Some(GAIN_TOP - applied);
    }
  }

  // ----- The reading of a region -----

  /** The sum of a region. */
  function Sum(region: Region): nat {
    region.rSum + region.gSum + region.bSum
  }

  /** The numbers fit: the sum into 64 bits, the mean and the reading into 31. */
  predicate Fits(region: Region, ratio: int)
    requires region.counted > 0
  {
    && Sum(region) < 0x1_0000_0000_0000_0000
    && Sum(region) < region.counted * INT_BOUND
    && (region.counted < 100 ==> 2 * Sum(region) < region.counted * Abs(ratio) * INT_BOUND)
  }

  /** The mean of the pixels divided by the ratio, towards zero. */
  predicate IsMean(region: Region, ratio: int, mean: int)
    requires region.counted > 0
  {
    && mean * ratio >= 0
    && Abs(mean) * (Abs(ratio) * region.counted) <= Sum(region) < (Abs(mean) + 1) * (Abs(ratio) * region.counted)
  }

  lemma Divided(a: nat, b: nat) returns (q: nat)
    requires b > 0
    ensures q == a / b && q * b <= a < (q + 1) * b
  {
    q := a / b;
  }

  lemma Ordered(m: nat, n: nat, w: nat)
    ensures m <= n ==> m * w <= n * w
  {
    if m <= n {
      AtMost(m, n, w);
    }
  }

  lemma DivideBelow(a: nat, b: nat, bound: nat)
    requires b > 0 && a < b * bound
    ensures a / b < bound
  {
    var q := Divided(a, b);
    Factor(q, b, bound, a);
  }

  lemma Factor(q: nat, b: nat, bound: nat, a: nat)
    requires q * b <= a < b * bound
    ensures q < bound
  {
    Ordered(bound, q, b);
  }

  lemma Regroup(q: nat, c: nat, b: nat)
    ensures (q * c) * b == q * (c * b)
  {}

  lemma Nested(a: nat, b: nat, c: nat, m: nat, q: nat)
    requires m * b <= a < (m + 1) * b && q * c <= m && m + 1 <= (q + 1) * c
    ensures q * (c * b) <= a < (q + 1) * (c * b)
  {
    AtMost(q * c, m, b);
    AtMost(m + 1, (q + 1) * c, b);
    Regroup(q, c, b);
    Regroup(q + 1, c, b);
  }

  lemma TwoDivisions(a: nat, b: nat, c: nat)
    requires b > 0 && c > 0
    ensures var q := a / b / c; q * (c * b) <= a < (q + 1) * (c * b)
  {
    var m := Divided(a, b);
    var q := Divided(m, c);
    Nested(a, b, c, m, q);
  }

  lemma Below(m: nat, q: nat, n: nat, sum: nat)
    requires m * n <= sum < (q + 1) * n
    ensures m <= q
  {
    Ordered(q + 1, m, n);
  }

  /** There is one such mean. */
  lemma MeanIsUnique(region: Region, ratio: int, m: int, n: int)
    requires region.counted > 0 && ratio != 0 && IsMean(region, ratio, m) && IsMean(region, ratio, n)
    ensures m == n
  {
    hide Quotient;
    var d := Abs(ratio) * region.counted;
    Below(Abs(m), Abs(n), d, Sum(region));
    Below(Abs(n), Abs(m), d, Sum(region));
    SameSign(m, n, ratio);
  }

  lemma SameSign(m: int, n: int, ratio: int)
    requires ratio != 0 && m * ratio >= 0 && n * ratio >= 0 && Abs(m) == Abs(n)
    ensures m == n
  {}

  /** The reading of a region whose numbers fit: the mean divided by the ratio, and for
      fewer than 100 pixels twice that. */
  lemma ReadingOfRegion(region: Region, ratio: int, mean: int)
    requires region.counted > 0 && ratio != 0 && Fits(region, ratio) && IsMean(region, ratio, mean)
    ensures RawGain(region, ratio) == if region.counted < 100 then 2 * mean else mean
  {
    hide Quotient, Fits, IsMean, Abs, RawGain, Sum;
    var m := Sum(region) / region.counted;
    MeanBelow(region, ratio);
    QuotientIsMean(region, ratio);
    MeanIsUnique(region, ratio, mean, Quotient(m, ratio));
    QuotientIsLess(m, ratio);
    if region.counted < 100 {
      HalfFits(region, ratio, mean);
    }
    RawOfMean(region, ratio, m, mean);
  }

  lemma MeanBelow(region: Region, ratio: int)
    requires region.counted > 0 && Fits(region, ratio)
    ensures Sum(region) / region.counted < INT_BOUND && Sum(region) < 0x1_0000_0000_0000_0000
  {
    DivideBelow(Sum(region), region.counted, INT_BOUND);
  }

  lemma RawOfMean(region: Region, ratio: int, m: nat, mean: int)
    requires region.counted > 0 && ratio != 0 && Sum(region) < 0x1_0000_0000_0000_0000
    requires m == Sum(region) / region.counted < INT_BOUND && mean == Quotient(m, ratio)
    requires -INT_BOUND < mean < INT_BOUND && (region.counted < 100 ==> -INT_BOUND < 2 * mean < INT_BOUND)
    ensures RawGain(region, ratio) == if region.counted < 100 then 2 * mean else mean
  {
    hide Quotient, ToInt32, Abs;
    FitsWord(m);
    FitsWord(mean);
    FitsWord(2 * mean);
    assert mean * 2 == 2 * mean;
    NoOverflow(Sum(region));
  }

  lemma FitsWord(x: int)
    ensures -INT_BOUND <= x < INT_BOUND ==> ToInt32(x) == x
  {}

  lemma NoOverflow(sum: nat)
    ensures sum < 0x1_0000_0000_0000_0000 ==> sum % 0x1_0000_0000_0000_0000 == sum
  {}

  lemma NoMore(q: nat, b: nat, m: nat)
    requires b > 0 && q * b <= m
    ensures q <= m
  {
    AtMost(1, b, q);
  }

  lemma AbsBelow(x: int, bound: int)
    requires Abs(x) < bound
    ensures -bound < x < bound
  {}

  lemma QuotientIsLess(m: nat, ratio: int)
    requires ratio != 0 && m < INT_BOUND
    ensures -INT_BOUND < Quotient(m, ratio) < INT_BOUND
  {
    hide Quotient, Abs;
    QuotientParts(m, ratio);
    var q := Divided(m, Abs(ratio));
    NoMore(q, Abs(ratio), m);
    AbsBelow(Quotient(m, ratio), INT_BOUND);
  }

  lemma QuotientIsMean(region: Region, ratio: int)
    requires region.counted > 0 && ratio != 0
    ensures IsMean(region, ratio, Quotient(Sum(region) / region.counted, ratio))
  {
    hide Quotient, Abs, Sum;
    QuotientParts(Sum(region) / region.counted, ratio);
    TwoDivisions(Sum(region), region.counted, Abs(ratio));
  }

  lemma QuotientParts(m: nat, ratio: int)
    requires ratio != 0
    ensures Abs(ratio) > 0 && Abs(Quotient(m, ratio)) == m / Abs(ratio) && Quotient(m, ratio) * ratio >= 0
  {
    var q := Divided(m, Abs(ratio));
  }

  lemma HalfFits(region: Region, ratio: int, mean: int)
    requires 0 < region.counted < 100 && ratio != 0 && Fits(region, ratio) && IsMean(region, ratio, mean)
    ensures -INT_BOUND < 2 * mean < INT_BOUND
  {
    HalfBelow(Abs(mean), Abs(ratio) * region.counted, Sum(region));
  }

  lemma HalfBelow(a: nat, d: nat, sum: nat)
    requires a * d <= sum && 2 * sum < d * INT_BOUND
    ensures 2 * a < INT_BOUND
  {
    Ordered(INT_BOUND, 2 * a, d);
  }

  // ----- Every measure -----

  ghost predicate Inv(core: Core) {
    && (core.applied == -1 || AGC_GAIN_MIN <= core.applied <= AGC_GAIN_MAX)
    && (core.ema.Some? ==> -INT_BOUND as real <= core.ema.value <= INT_BOUND as real)
  }

  /** No value in range is nearer. */
  lemma ClampIsNearest(gain: int, other: int)
    requires AGC_GAIN_MIN <= other <= AGC_GAIN_MAX
    ensures Abs(gain - Clamp(gain)) <= Abs(gain - other)
  {}

  /** A step is a third of the error, towards zero, or 80 where that is more; it is at
      least 3. */
  lemma StepIsPart(error: int)
    requires Abs(error) > AGC_DEADBAND
    ensures 3 <= Abs(StepFor(error)) <= AGC_MAX_STEP && Abs(StepFor(error)) * 3 <= Abs(error)
    ensures Abs(StepFor(error)) < AGC_MAX_STEP ==> Abs(error) < Abs(StepFor(error)) * 3 + 3
    ensures StepFor(error) > 0 <==> error > 0
    ensures Abs(error - StepFor(error)) == Abs(error) - Abs(StepFor(error))
  {}

  /** A command brings the gain nearer to its target without passing it; the limits
      are never reached by a step, so that the clamp after it does nothing. */
  lemma CommandApproaches(core: Core, region: Region, ratio: int)
    requires Inv(core) && (region.counted > 0 ==> ratio != 0)
    ensures var (next, gain) := Measured(core, region, ratio);
      var target := Targeted(core, region, ratio).1;
      && Inv(next) && next.applied >= 0
      && (gain.Some? ==> gain.value == next.applied)
      && (gain.None? <==> core.applied >= 0 && Abs(target - core.applied) <= AGC_DEADBAND)
      && (gain.None? ==> next.applied == core.applied)
      && (gain.Some? && core.applied < 0 ==> next.applied == target)
      && (gain.Some? && core.applied >= 0 ==>
            && next.applied == core.applied + StepFor(target - core.applied)
            && Abs(target - next.applied) <= Abs(target - core.applied) - 3
            && (target > next.applied <==> target > core.applied))
  {
    hide Quotient, RawGain, Truncated, StepFor;
    EmaIsBounded(core, region, ratio);
    var target := Targeted(core, region, ratio).1;
    if core.applied >= 0 && Abs(target - core.applied) > AGC_DEADBAND {
      StepIsPart(target - core.applied);
    }
  }

  lemma EmaIsBounded(core: Core, region: Region, ratio: int)
    requires Inv(core) && (region.counted > 0 ==> ratio != 0)
    ensures Inv(Targeted(core, region, ratio).0)
  {
    hide Quotient, RawGain, Truncated;
  }

  // ----- Whole runs -----

  ghost predicate StateInv(s: State) {
    Inv(s.core) && s.counter < GAIN_AGC_PERIOD && s.settle <= AGC_SETTLE_CYCLES
  }

  /** Frames until the next measure. */
  function Wait(s: State): int {
    GAIN_AGC_PERIOD - s.counter + GAIN_AGC_PERIOD * s.settle
  }

  lemma FrameKeeps(s: State, stats: seq<Region>, main: int, ratio: int)
    requires StateInv(s) && (Divides(s, stats, main) ==> ratio != 0)
    ensures var o := Frame(s, stats, main, ratio);
      && StateInv(o.state)
      && (Wait(s) > 1 ==> Wait(o.state) == Wait(s) - 1 && o.state.core == s.core && o.command.None?)
      && (Wait(s) == 1 && 0 <= main < |stats| ==>
            var (core, gain) := Measured(s.core, stats[main], ratio);
            && o.state.core == core && o.command.Some? == gain.Some?
            && Wait(o.state) == if gain.Some? then 4 * GAIN_AGC_PERIOD else GAIN_AGC_PERIOD)
      && (o.command.Some? ==> o.command.value == GAIN_TOP - o.state.core.applied && o.state.core.applied >= 0)
  {
    hide Measured, Targeted, Inv;
    if Wait(s) == 1 && 0 <= main < |stats| {
      CommandApproaches(s.core, stats[main], ratio);
      var (core, gain) := Measured(s.core, stats[main], ratio);
    }
  }

  /** With a ratio of 0, no frame of the run comes to the division. */
  predicate Survives(s: State, frames: seq<seq<Region>>, main: int)
    decreases |frames|
  {
    frames == []
    || (!Divides(s, frames[0], main) && Survives(Frame(s, frames[0], main, 0).state, frames[1..], main))
  }

  /** A ratio of 0, which the option takes, goes well exactly until the next measure, if
      its region has pixels. */
  lemma {:induction false} NextMeasureDivides(s: State, frames: seq<seq<Region>>, main: int)
    requires StateInv(s) && |frames| <= Wait(s)
    ensures Survives(s, frames, main)
            <==> !(|frames| == Wait(s) && 0 <= main < |frames[Wait(s) - 1]| && frames[Wait(s) - 1][main].counted > 0)
    decreases |frames|
  {
    hide Frame;
    assert Divides(s, if frames == [] then [] else frames[0], main) ==> Wait(s) == 1;
    if frames != [] && Wait(s) > 1 {
      FrameKeeps(s, frames[0], main, 0);
      NextMeasureDivides(Frame(s, frames[0], main, 0).state, frames[1..], main);
    }
  }

  /** The state before the k-th frame of a run. */
  function Before(s: State, frames: seq<seq<Region>>, main: int, ratio: int, k: nat): State
    requires ratio != 0 && k <= |frames|
    decreases k
  {
    if k == 0 then s else Before(Frame(s, frames[0], main, ratio).state, frames[1..], main, ratio, k - 1)
  }

  /** The k-th frame is measured, and its region has pixels. */
  predicate MeasuresPixels(s: State, frames: seq<seq<Region>>, main: int, ratio: int, k: nat)
    requires ratio != 0 && k < |frames|
  {
    Wait(Before(s, frames, main, ratio, k)) == 1 && 0 <= main < |frames[k]| && frames[k][main].counted > 0
  }

  lemma DividesAtMeasure(s: State, stats: seq<Region>, main: int)
    requires StateInv(s)
    ensures Divides(s, stats, main) <==> Wait(s) == 1 && 0 <= main < |stats| && stats[main].counted > 0
  {}

  /** Over a whole run a ratio of 0 goes well if and only if, with any other ratio, no
      measured frame of the run has pixels in its region. */
  lemma {:induction false} ZeroRatioSurvives(s: State, frames: seq<seq<Region>>, main: int, ratio: int)
    requires StateInv(s) && ratio != 0
    ensures Survives(s, frames, main)
            <==> forall k | 0 <= k < |frames| :: !MeasuresPixels(s, frames, main, ratio, k)
    decreases |frames|
  {
    hide Frame, Divides, Wait, StateInv;
    if frames != [] {
      DividesAtMeasure(s, frames[0], main);
      assert MeasuresPixels(s, frames, main, ratio, 0) <==> Divides(s, frames[0], main);
      if !Divides(s, frames[0], main) {
        var t := Frame(s, frames[0], main, ratio).state;
        SameWithoutDivision(s, frames[0], main, ratio);
        FrameKeeps(s, frames[0], main, ratio);
        ZeroRatioSurvives(t, frames[1..], main, ratio);
        forall k | 0 < k < |frames|
          ensures MeasuresPixels(s, frames, main, ratio, k) <==> MeasuresPixels(t, frames[1..], main, ratio, k - 1)
        {}
        if forall k | 0 <= k < |frames| :: !MeasuresPixels(s, frames, main, ratio, k) {
          forall j | 0 <= j < |frames[1..]| ensures !MeasuresPixels(t, frames[1..], main, ratio, j) {
            assert !MeasuresPixels(s, frames, main, ratio, j + 1);
          }
        }
      }
    }
  }

  lemma SameWithoutDivision(s: State, stats: seq<Region>, main: int, ratio: int)
    requires !Divides(s, stats, main) && ratio != 0
    ensures Frame(s, stats, main, 0) == Frame(s, stats, main, ratio)
  {
    hide RawGain, Smoothed, StepFor;
  }

  /** The k-th outcome of a run. */
  function OutcomeAt(s: State, frames: seq<seq<Region>>, main: int, ratio: int, k: nat): Outcome
    requires ratio != 0 && k < |frames|
    decreases k
  {
    var o := Frame(s, frames[0], main, ratio);
    if k == 0 then o else OutcomeAt(o.state, frames[1..], main, ratio, k - 1)
  }

  lemma {:induction false} CommandsInRange(s: State, frames: seq<seq<Region>>, main: int, ratio: int, k: nat)
    requires StateInv(s) && ratio != 0 && k < |frames|
    ensures var o := OutcomeAt(s, frames, main, ratio, k);
      && StateInv(o.state)
      && (o.command.Some? ==> AGC_GAIN_MIN <= o.command.value <= AGC_GAIN_MAX)
    decreases k
  {
    hide Frame;
    FrameKeeps(s, frames[0], main, ratio);
    if k > 0 {
      CommandsInRange(Frame(s, frames[0], main, ratio).state, frames[1..], main, ratio, k - 1);
    }
  }

  lemma {:induction false} SilentWhileWaiting(s: State, frames: seq<seq<Region>>, main: int, ratio: int, k: nat)
    requires StateInv(s) && ratio != 0 && k < |frames|
    requires OutcomeAt(s, frames, main, ratio, k).command.Some?
    ensures k + 1 >= Wait(s)
    decreases k
  {
    hide Frame;
    FrameKeeps(s, frames[0], main, ratio);
    if k > 0 {
      SilentWhileWaiting(Frame(s, frames[0], main, ratio).state, frames[1..], main, ratio, k - 1);
    }
  }

  /** Between two commands there are at least 120 frames. */
  lemma {:induction false} CommandsAreApart(s: State, frames: seq<seq<Region>>, main: int, ratio: int, i: nat, j: nat)
    requires StateInv(s) && ratio != 0 && i < j < |frames|
    requires OutcomeAt(s, frames, main, ratio, i).command.Some?
    requires OutcomeAt(s, frames, main, ratio, j).command.Some?
    ensures j - i >= 120
    decreases i
  {
    hide Measured;
    FrameKeeps(s, frames[0], main, ratio);
    var t := Frame(s, frames[0], main, ratio).state;
    if i == 0 {
      SilentWhileWaiting(t, frames[1..], main, ratio, j - 1);
    } else {
      CommandsAreApart(t, frames[1..], main, ratio, i - 1, j - 1);
    }
  }

  // ----- A constant reading -----

  /** The cores after n measures of the same region. */
  function Measures(core: Core, region: Region, ratio: int, n: nat): Core
    requires ratio != 0
    decreases n
  {
    if n == 0 then core else Measures(Measured(core, region, ratio).0, region, ratio, n - 1)
  }

  /** The state after n frames with the same statistics. */
  function Frames(s: State, stats: seq<Region>, main: int, ratio: int, n: nat): State
    requires ratio != 0
    decreases n
  {
    if n == 0 then s else Frames(Frame(s, stats, main, ratio).state, stats, main, ratio, n - 1)
  }

  /** There is a measure at least every 120 frames. */
  lemma {:induction false} FramesAreMeasures(s: State, stats: seq<Region>, main: int, ratio: int, n: nat) returns (k: nat)
    requires StateInv(s) && ratio != 0 && 0 <= main < |stats|
    ensures Frames(s, stats, main, ratio, n).core == Measures(s.core, stats[main], ratio, k)
    ensures n < Wait(s) + 120 * k
    ensures StateInv(Frames(s, stats, main, ratio, n))
    decreases n
  {
    hide Frame, Measured;
    if n == 0 {
      k := 0;
    } else {
      FrameKeeps(s, stats, main, ratio);
      k := FramesAreMeasures(Frame(s, stats, main, ratio).state, stats, main, ratio, n - 1);
      if Wait(s) <= 1 {
        k := k + 1;
      }
    }
  }

  /** Where the gain goes in the end. */
  function Goal(region: Region, ratio: int): int
    requires ratio != 0
  {
    if region.counted == 0 then AGC_GAIN_MIN else Clamp(RawGain(region, ratio))
  }

  function RealAbs(x: real): real {
    if x < 0.0 then -x else x
  }

  /** How far the smoothed measure is from the reading; nothing is, of no pixels. */
  function Off(core: Core, region: Region, ratio: int): real
    requires ratio != 0
  {
    if region.counted == 0 then 0.0
    else if core.ema.None? then INT_BOUND as real
    else RealAbs(core.ema.value - RawGain(region, ratio) as real)
  }

  /** A measure of pixels takes 15 percent off, the first one everything; a measure of
      no pixels leaves the filter alone. */
  lemma OffShrinks(core: Core, region: Region, ratio: int)
    requires ratio != 0 && Inv(core)
    ensures var next := Measured(core, region, ratio).0;
      && (region.counted == 0 ==> next.ema == core.ema)
      && (region.counted > 0 ==>
            Off(next, region, ratio) == if core.ema.None? then 0.0 else 0.85 * Off(core, region, ratio))
    ensures Off(Measured(core, region, ratio).0, region, ratio) <= 0.85 * Off(core, region, ratio)
    ensures 0.0 <= Off(core, region, ratio) <= 2.0 * INT_BOUND as real
  {
    hide Truncated, RawGain, StepFor;
    if region.counted > 0 && core.ema.Some? {
      var raw := RawGain(region, ratio) as real;
      assert Smoothed(core.ema, RawGain(region, ratio)) - raw == 0.85 * (core.ema.value - raw);
    }
  }

  /** Once the smoothed measure is within half a unit the target is the goal. */
  lemma TargetIsGoal(core: Core, region: Region, ratio: int)
    requires ratio != 0 && Off(core, region, ratio) < 0.5
    ensures Targeted(core, region, ratio).1 == Goal(region, ratio)
  {
    hide RawGain;
  }

  function Decay(d: real, n: nat): real
    decreases n
  {
    if n == 0 then d else Decay(0.85 * d, n - 1)
  }

  lemma {:induction false} OffDecays(core: Core, region: Region, ratio: int, n: nat, d: real)
    requires ratio != 0 && Inv(core) && Off(core, region, ratio) <= d
    ensures Inv(Measures(core, region, ratio, n)) && Off(Measures(core, region, ratio, n), region, ratio) <= Decay(d, n)
    decreases n
  {
    hide Measured, Off, Inv;
    if n > 0 {
      OffShrinks(core, region, ratio);
      CommandApproaches(core, region, ratio);
      OffDecays(Measured(core, region, ratio).0, region, ratio, n - 1, 0.85 * d);
    }
  }

  /** Five measures halve the distance. */
  lemma {:induction false} DecayHalves(d: real, k: nat)
    requires d >= 0.0
    ensures Decay(d, 5 * k) * Pow2(k) as real <= d
    decreases k
  {
    if k > 0 {
      var e := 0.85 * (0.85 * (0.85 * (0.85 * (0.85 * d))));
      assert Decay(d, 5 * k) == Decay(e, 5 * (k - 1)) by { FiveSteps(d, 5 * (k - 1)); }
      DecayHalves(e, k - 1);
      assert Decay(d, 5 * k) * Pow2(k) as real == 2.0 * (Decay(e, 5 * (k - 1)) * Pow2(k - 1) as real);
    } else {
      assert Decay(d, 0) * Pow2(0) as real == d;
    }
  }

  lemma FiveSteps(d: real, n: nat)
    ensures Decay(d, n + 5) == Decay(0.85 * (0.85 * (0.85 * (0.85 * (0.85 * d)))), n)
  {
    var d1 := 0.85 * d;
    var d2 := 0.85 * d1;
    var d3 := 0.85 * d2;
    var d4 := 0.85 * d3;
    assert Decay(d, n + 5) == Decay(d1, n + 4);
    assert Decay(d1, n + 4) == Decay(d2, n + 3);
    assert Decay(d2, n + 3) == Decay(d3, n + 2);
    assert Decay(d3, n + 2) == Decay(d4, n + 1);
    assert Decay(d4, n + 1) == Decay(0.85 * d4, n);
  }

  const MEASURES_TO_FILTER: nat := 166
  const STEPS_TO_GOAL: nat := 18

  /** From any filter state 166 measures bring it within half a unit, for good. */
  lemma FilterConverges(core: Core, region: Region, ratio: int)
    requires ratio != 0 && Inv(core)
    ensures Off(Measures(core, region, ratio, MEASURES_TO_FILTER), region, ratio) < 0.5
  {
    hide Measures, Off, Measured;
    var d := 4294967296.0;
    OffShrinks(core, region, ratio);
    OffDecays(core, region, ratio, 166, d);
    DecayHalves(0.85 * d, 33);
    PowerOf33();
  }

  lemma PowerOf33()
    ensures Pow2(33) == 8589934592
  {
    assert Pow2(11) == 2048;
    assert Pow2(22) == 4194304;
  }

  /** The commands still needed for an error of e. */
  function Need(e: nat): nat {
    if e <= AGC_DEADBAND then 0 else StepIsPart(e); 1 + Need(e - StepFor(e))
  }

  lemma {:induction false} NeedGrows(e: nat, f: nat)
    requires e <= f
    ensures Need(e) <= Need(f)
  {
    if e > AGC_DEADBAND {
      StepIsPart(e);
      StepIsPart(f);
      NeedGrows(e - StepFor(e), f - StepFor(f));
    }
  }

  lemma NeedIsSmall(e: nat)
    requires e <= AGC_GAIN_MAX - AGC_GAIN_MIN
    ensures Need(e) <= STEPS_TO_GOAL
  {
    hide Need, StepFor;
    NeedGrows(e, 997);
    Halfway();
    assert Need(8) == 0 by { NothingNeeded(8); }
    NeedAfter(197, 132);
    NeedAfter(132, 88);
    NeedAfter(88, 59);
    NeedAfter(59, 40);
    NeedAfter(40, 27);
    NeedAfter(27, 18);
    NeedAfter(18, 12);
    NeedAfter(12, 8);
  }

  /** The steps of 80. */
  lemma Halfway()
    ensures Need(997) == 10 + Need(197)
  {
    hide Need, StepFor;
    NeedAfter(997, 917);
    NeedAfter(917, 837);
    NeedAfter(837, 757);
    NeedAfter(757, 677);
    NeedAfter(677, 597);
    NeedAfter(597, 517);
    NeedAfter(517, 437);
    NeedAfter(437, 357);
    NeedAfter(357, 277);
    NeedAfter(277, 197);
  }

  lemma NothingNeeded(e: nat)
    ensures e <= AGC_DEADBAND ==> Need(e) == 0
  {}

  lemma NeedAfter(e: nat, f: nat)
    requires e > AGC_DEADBAND && f == e - (if e / 3 > AGC_MAX_STEP then AGC_MAX_STEP else e / 3)
    ensures Need(e) == 1 + Need(f)
  {}

  /** The filter is there, and the gain was set once: the error that is left. */
  ghost predicate Filtered(core: Core, region: Region, ratio: int)
    requires ratio != 0
  {
    Inv(core) && core.applied >= 0 && Off(core, region, ratio) < 0.5
  }

  function ErrorOf(core: Core, region: Region, ratio: int): nat
    requires ratio != 0
  {
    Abs(Goal(region, ratio) - core.applied)
  }

  lemma FilteredMeasure(core: Core, region: Region, ratio: int)
    requires ratio != 0 && Filtered(core, region, ratio)
    ensures var (next, gain) := Measured(core, region, ratio);
      var e := ErrorOf(core, region, ratio);
      && Filtered(next, region, ratio)
      && (gain.Some? <==> e > AGC_DEADBAND)
      && Need(ErrorOf(next, region, ratio)) == if gain.Some? then Need(e) - 1 else Need(e)
  {
    hide Inv, Off, Targeted, Need, StepFor, RawGain, Measured;
    OffShrinks(core, region, ratio);
    CommandApproaches(core, region, ratio);
    TargetIsGoal(core, region, ratio);
    var error := Goal(region, ratio) - core.applied;
    if Abs(error) > AGC_DEADBAND {
      StepIsPart(error);
      OddStep(error);
      NeedUnfolds(Abs(error));
    }
  }

  lemma OddStep(error: int)
    ensures Abs(StepFor(error)) == Abs(StepFor(Abs(error)))
    ensures Abs(error) > AGC_DEADBAND ==> StepFor(Abs(error)) > 0
  {}

  lemma NeedUnfolds(e: nat)
    requires e > AGC_DEADBAND
    ensures e - StepFor(e) >= 0 && Need(e) == 1 + Need(e - StepFor(e))
  {
    StepIsPart(e);
  }

  /** The commands sent in n measures of the same region. */
  function Commands(core: Core, region: Region, ratio: int, n: nat): nat
    requires ratio != 0
    decreases n
  {
    if n == 0 then 0
    else
      var (next, gain) := Measured(core, region, ratio);
      (if gain.Some? then 1 else 0) + Commands(next, region, ratio, n - 1)
  }

  /** Once the filter is there at most 18 commands follow, and the 18th measure leaves
      an error of at most 8. */
  lemma {:induction false} FewCommands(core: Core, region: Region, ratio: int, n: nat)
    requires ratio != 0 && Filtered(core, region, ratio)
    ensures var e := ErrorOf(core, region, ratio);
      var t := Measures(core, region, ratio, n);
      && Commands(core, region, ratio, n) <= Need(e) <= STEPS_TO_GOAL
      && Filtered(t, region, ratio)
      && (n >= Need(e) ==> ErrorOf(t, region, ratio) <= AGC_DEADBAND)
    decreases n
  {
    hide Need, Measured, Off;
    var e := ErrorOf(core, region, ratio);
    NeedIsSmall(e);
    NeedIsZero(e);
    if n > 0 {
      FilteredMeasure(core, region, ratio);
      FewCommands(Measured(core, region, ratio).0, region, ratio, n - 1);
    }
  }

  lemma NeedIsZero(e: nat)
    ensures Need(e) == 0 <==> e <= AGC_DEADBAND
  {}

  lemma {:induction false} MeasuresSplit(core: Core, region: Region, ratio: int, m: nat, n: nat)
    requires ratio != 0
    ensures Measures(core, region, ratio, m + n) == Measures(Measures(core, region, ratio, m), region, ratio, n)
    decreases m
  {
    hide Measured;
    if m > 0 {
      MeasuresSplit(Measured(core, region, ratio).0, region, ratio, m - 1, n);
    }
  }

  /** Under a constant reading, from any state, 184 measures are enough for good. */
  lemma MeasuresSettle(core: Core, region: Region, ratio: int, n: nat)
    requires ratio != 0 && Inv(core) && n >= MEASURES_TO_FILTER + STEPS_TO_GOAL
    ensures var t := Measures(core, region, ratio, n);
      && Filtered(t, region, ratio) && ErrorOf(t, region, ratio) <= AGC_DEADBAND
      && Measured(t, region, ratio).1.None?
  {
    hide Measured, Off, Measures, Need;
    var m := MEASURES_TO_FILTER;
    var between := Measures(core, region, ratio, m);
    FilterConverges(core, region, ratio);
    GainIsSet(core, region, ratio, m);
    MeasuresSplit(core, region, ratio, m, n - m);
    FewCommands(between, region, ratio, n - m);
    FilteredMeasure(Measures(core, region, ratio, n), region, ratio);
  }

  lemma {:induction false} GainIsSet(core: Core, region: Region, ratio: int, n: nat)
    requires ratio != 0 && Inv(core) && (n > 0 || core.applied >= 0)
    ensures Inv(Measures(core, region, ratio, n)) && Measures(core, region, ratio, n).applied >= 0
    decreases n
  {
    hide Measured;
    if n > 0 {
      CommandApproaches(core, region, ratio);
      GainIsSet(Measured(core, region, ratio).0, region, ratio, n - 1);
    }
  }

  /** With constant statistics, from any state, 22200 frames are enough: from then on
      the gain is within 8 of the reading, as far as the limits allow, and no command
      is sent any more. */
  lemma ConstantReadingSettles(s: State, stats: seq<Region>, main: int, ratio: int, n: nat)
    requires StateInv(s) && ratio != 0 && 0 <= main < |stats|
    requires n >= 120 * (1 + MEASURES_TO_FILTER + STEPS_TO_GOAL)
    ensures var t := Frames(s, stats, main, ratio, n);
      && Abs(Goal(stats[main], ratio) - t.core.applied) <= AGC_DEADBAND
      && Frame(t, stats, main, ratio).command.None?
  {
    hide Measured, Measures, Frame, Frames, Goal;
    var k := FramesAreMeasures(s, stats, main, ratio, n);
    MeasuresSettle(s.core, stats[main], ratio, k);
    FrameKeeps(Frames(s, stats, main, ratio, n), stats, main, ratio);
  }

  /** Where the gain settles, in the statistics: for a region with pixels whose numbers
      fit, within 8 of the mean divided by the ratio, twice that for fewer than 100
      pixels, as far as 13..1010 allows; for one without pixels, within 8 of 13. */
  lemma SettlesAtReading(s: State, stats: seq<Region>, main: int, ratio: int, n: nat, mean: int)
    requires StateInv(s) && ratio != 0 && 0 <= main < |stats|
    requires n >= 120 * (1 + MEASURES_TO_FILTER + STEPS_TO_GOAL)
    requires stats[main].counted > 0 ==> Fits(stats[main], ratio) && IsMean(stats[main], ratio, mean)
    ensures var goal := if stats[main].counted == 0 then 0 else if stats[main].counted < 100 then 2 * mean else mean;
            Abs(Clamp(goal) - Frames(s, stats, main, ratio, n).core.applied) <= AGC_DEADBAND
  {
    hide Frames, RawGain, Fits, IsMean;
    ConstantReadingSettles(s, stats, main, ratio, n);
    if stats[main].counted > 0 {
      ReadingOfRegion(stats[main], ratio, mean);
    }
  }
}
