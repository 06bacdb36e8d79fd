/**
  The multi-turn position accumulator of src/meow_motor/entry.rs and the signed
  Q8.24 positions of src/meow_motor/fixed.rs.

  Positions are raw Q8.24 units (2^24 per revolution) and accumulate exactly;
  host time is in nanoseconds, device timestamps are u16 microseconds that wrap.
 */
module PositionAccumulator {
  import opened Wrappers

  type Raw = r: int | -0x8000_0000 <= r < 0x8000_0000
  type Stamp = t: nat | t < 0x1_0000

  const SCALE: real := 16777216.0
  const MAX_GAP_NS: int := 50_000_000

  datatype Frame = Frame(position: Raw, timestampUs: Stamp, nowNs: int)

  datatype Telemetry = Telemetry(
    lastTpdo1: Option<int>, lastPosition: Option<Raw>, lastTimestampUs: Option<Stamp>, needsBaseline: bool,
    segment: nat, accumulated: Option<int>, valid: bool, velocity: Option<real>)

  const RESET: Telemetry := Telemetry(None, None, None, false, 0, None, false, None)

  /** Two's complement reading of an integer. */
  function Wrap(x: int): Raw {
    (x + 0x8000_0000) % 0x1_0000_0000 - 0x8000_0000
  }

  function WrappingDelta(current: Raw, previous: Raw): Raw {
    Wrap(current - previous)
  }

  function StampDelta(current: Stamp, previous: Stamp): Stamp {
    (current - previous) % 0x1_0000
  }

  predicate GapTooLarge(t: Telemetry, nowNs: int) {
    t.lastTpdo1.Some? && nowNs - t.lastTpdo1.value > MAX_GAP_NS
  }

  /** The frame cannot continue the position history it finds. */
  predicate Breaks(t: Telemetry, f: Frame) {
    && t.lastPosition.Some?
    && (|| GapTooLarge(t, f.nowNs)
        || t.lastTimestampUs.None?
        || !(1 <= StampDelta(f.timestampUs, t.lastTimestampUs.value) <= 50_000))
  }

  /** The frame extends the accumulated position. */
  predicate Accumulates(t: Telemetry, f: Frame) {
    && !t.needsBaseline && t.lastPosition.Some? && t.accumulated.Some? && t.lastTimestampUs.Some?
    && 1 <= StampDelta(f.timestampUs, t.lastTimestampUs.value) <= 50_000
  }

  /** Revolutions per second from raw units per microseconds. */
  function Velocity(delta: int, dtUs: nat): real
    requires dtUs > 0
  {
    delta as real / SCALE * 1000000.0 / dtUs as real
  }

  function Applied(t: Telemetry, f: Frame): Telemetry {
    var t' := t.(lastTpdo1 := Some(f.nowNs), lastPosition := Some(f.position), lastTimestampUs := Some(f.timestampUs));
    if Breaks(t, f) then
      t'.(needsBaseline := true, segment := (t.segment + 1) % 0x1_0000_0000_0000_0000,
          accumulated := None, velocity := None, valid := false)
    else if Accumulates(t, f) then
      var delta := WrappingDelta(f.position, t.lastPosition.value);
      var dt := StampDelta(f.timestampUs, t.lastTimestampUs.value);
      t'.(accumulated := Some(t.accumulated.value + delta), valid := true, velocity := Some(Velocity(delta, dt)))
    else
      t'.(needsBaseline := false, accumulated := Some(f.position), velocity := None, valid := true)
  }

  class MotorTelemetry {
    var sessionEpoch: nat
    var lastTpdo1: Option<int>
    var lastPosition: Option<Raw>
    var lastTimestampUs: Option<Stamp>
    var needsBaseline: bool
    var segment: nat
    var accumulated: Option<int>
    var valid: bool
    var velocity: Option<real>

    function State(): Telemetry
      reads this
    {
      Telemetry(lastTpdo1, lastPosition, lastTimestampUs, needsBaseline, segment, accumulated, valid, velocity)
    }

    constructor ()
      ensures State() == RESET && sessionEpoch == 0
    {
      sessionEpoch, segment, needsBaseline, valid := 0, 0, false, false;
      lastTpdo1, lastPosition, lastTimestampUs, accumulated, velocity := None, None, None, None, None;
    }

    method Continuity(f: Frame) returns (breaks: bool, timestampDelta: Option<Stamp>)
      ensures breaks == Breaks(State(), f)
      ensures timestampDelta
              == if lastTimestampUs.None? then None else Some(StampDelta(f.timestampUs, lastTimestampUs.value))
    {
      var gapTooLarge := lastTpdo1.Some? && f.nowNs - lastTpdo1.value > MAX_GAP_NS;
      timestampDelta := None;
      if lastTimestampUs.Some? {
        timestampDelta := Some(StampDelta(f.timestampUs, lastTimestampUs.value));
      }
      breaks := lastPosition.Some? && (gapTooLarge || timestampDelta.None? || !(1 <= timestampDelta.value <= 50_000));
    }

    method ApplyTpdo1(f: Frame)
      modifies this
      ensures State() == Applied(old(State()), f)
      ensures sessionEpoch == old(sessionEpoch)
      ensures lastTpdo1 == Some(f.nowNs) && lastPosition == Some(f.position) && lastTimestampUs == Some(f.timestampUs)
      ensures old(Shaped(State())) && old(lastPosition).None? ==>
                valid && accumulated == Some(f.position) && velocity == None && segment == old(segment)
      ensures old(Shaped(State())) && old(lastPosition).Some? ==>
                var dt := (f.timestampUs - old(lastTimestampUs).value) % 0x1_0000;
                var inTime := f.nowNs - old(lastTpdo1).value <= 50_000_000 && 1 <= dt <= 50_000;
                && valid == inTime
                && segment == (if inTime then old(segment) else (old(segment) + 1) % 0x1_0000_0000_0000_0000)
                && accumulated == if !inTime then None
                                  else if !old(valid) then Some(f.position)
                                  else Some(old(accumulated).value + Wrap(f.position - old(lastPosition).value))
    {
      var breaks, timestampDelta := Continuity(f);
      var nextAccumulated: Option<int>, nextVelocity: Option<real>, nextValid := None, None, false;
      if breaks {
        needsBaseline := true;
        segment := (segment + 1) % 0x1_0000_0000_0000_0000;
      } else if needsBaseline {
        needsBaseline := false;
        nextAccumulated, nextValid := Some(f.position), true;
      } else if lastPosition.Some? && accumulated.Some? && timestampDelta.Some? && 1 <= timestampDelta.value <= 50_000 {
        var delta := WrappingDelta(f.position, lastPosition.value);
        nextAccumulated := Some(accumulated.value + delta);
        nextVelocity := Some(Velocity(delta, timestampDelta.value));
        nextValid := true;
      } else {
        nextAccumulated, nextValid := Some(f.position), true;
      }
      Remember(f, nextAccumulated, nextVelocity, nextValid);
    }

    method Remember(f: Frame, nextAccumulated: Option<int>, nextVelocity: Option<real>, nextValid: bool)
      modifies this
      ensures sessionEpoch == old(sessionEpoch)
      ensures State() == old(State()).(lastTpdo1 := Some(f.nowNs), lastPosition := Some(f.position),
                                       lastTimestampUs := Some(f.timestampUs), accumulated := nextAccumulated,
                                       valid := nextValid, velocity := nextVelocity)
    {
      lastTpdo1 := Some(f.nowNs);
      lastPosition := Some(f.position);
      lastTimestampUs := Some(f.timestampUs);
      accumulated, valid, velocity := nextAccumulated, nextValid, nextVelocity;
    }

    method ResetTelemetry()
      modifies this
      ensures State() == RESET && sessionEpoch == old(sessionEpoch)
    {
      segment, needsBaseline, valid := 0, false, false;
      lastTpdo1, lastPosition, lastTimestampUs, accumulated, velocity := None, None, None, None, None;
    }

    method InvalidateSession()
      modifies this
      ensures State() == RESET && sessionEpoch == (old(sessionEpoch) + 1) % 0x1_0000_0000_0000_0000
    {
      sessionEpoch := (sessionEpoch + 1) % 0x1_0000_0000_0000_0000;
      ResetTelemetry();
    }
  }

  // ---------------------------------------------------------------------
  // Wrapping arithmetic
  // ---------------------------------------------------------------------

  lemma {:induction false} WrapCongruent(x: int)
    ensures WholeWraps(Wrap(x) - x)
    ensures Wrap(x) == x <==> -0x8000_0000 <= x < 0x8000_0000
  {
  }

  /** The modular delta of two wrapped positions is the true displacement exactly when that is under 128 turns. */
  lemma {:induction false} DeltaExact(x: int, y: int)
    ensures WrappingDelta(Wrap(y), Wrap(x)) == y - x <==> -0x8000_0000 <= y - x < 0x8000_0000
    ensures WholeWraps(WrappingDelta(Wrap(y), Wrap(x)) - (y - x))
  {
    var k := (Wrap(y) - y) / 0x1_0000_0000 - (Wrap(x) - x) / 0x1_0000_0000;
    WrapCongruent(x);
    WrapCongruent(y);
    assert Wrap(y) - Wrap(x) == y - x + 0x1_0000_0000 * k;
    WrapPeriodic(y - x, k);
    WrapCongruent(y - x);
  }

  lemma {:induction false} WrapPeriodic(x: int, k: int)
    ensures Wrap(x + 0x1_0000_0000 * k) == Wrap(x)
  {
  }

  // ---------------------------------------------------------------------
  // Conversion of position targets
  // ---------------------------------------------------------------------

  function ToRevolutions(r: Raw): real {
    r as real / 16777216.0
  }

  /** Round to nearest, halves away from zero. */
  function Round(x: real): int {
    if x >= 0.0 then (x + 0.5).Floor else -(-x + 0.5).Floor
  }

  function FromRevolutions(revolutions: real): Option<Raw> {
    if !(-128.0 <= revolutions <= ToRevolutions(0x7FFF_FFFF)) then None
    else
      var scaled := Round(revolutions * 16777216.0);
      if scaled < -0x8000_0000 || scaled > 0x7FFF_FFFF then None else Some(scaled)
  }

  /** A target is accepted exactly within the representable range, and is off by at most half a unit. */
  lemma {:induction false} FromRevolutionsNearest(revolutions: real)
    ensures FromRevolutions(revolutions).Some? <==> -128.0 <= revolutions <= ToRevolutions(0x7FFF_FFFF)
    ensures FromRevolutions(revolutions).Some?
            ==> -0.5 <= FromRevolutions(revolutions).value as real - revolutions * 16777216.0 <= 0.5
  {
  }

  lemma {:induction false} FromRevolutionsRoundTrip(r: Raw)
    ensures FromRevolutions(ToRevolutions(r)) == Some(r)
  {
    assert ToRevolutions(r) * 16777216.0 == r as real;
  }

  // ---------------------------------------------------------------------
  // One step
  // ---------------------------------------------------------------------

  /** What every operation keeps: which fields are present together. */
  predicate Shaped(t: Telemetry) {
    && (t.lastPosition.Some? <==> t.lastTimestampUs.Some?)
    && (t.lastPosition.Some? <==> t.lastTpdo1.Some?)
    && (t.valid <==> t.accumulated.Some?)
    && (t.lastPosition.Some? ==> t.valid == !t.needsBaseline)
    && (t.lastPosition.None? ==> !t.valid && !t.needsBaseline)
  }

  /** A whole number of counter wraps of 256 revolutions. */
  predicate WholeWraps(x: int) {
    x % 0x1_0000_0000 == 0
  }

  /** The accumulated position agrees with the raw position up to whole wraps. */
  predicate Congruent(t: Telemetry) {
    t.accumulated.Some? ==> t.lastPosition.Some? && WholeWraps(t.accumulated.value - t.lastPosition.value)
  }

  lemma {:induction false} ResetIsConsistent()
    ensures Shaped(RESET) && Congruent(RESET)
  {
  }

  lemma {:induction false} AppliedShaped(t: Telemetry, f: Frame)
    requires Shaped(t)
    ensures Shaped(Applied(t, f))
    ensures Applied(t, f).lastPosition == Some(f.position) && Applied(t, f).lastTimestampUs == Some(f.timestampUs)
    ensures Applied(t, f).lastTpdo1 == Some(f.nowNs)
  {
  }

  /** The accumulated position stays congruent to the raw position, whatever the frames. */
  lemma {:induction false} AppliedCongruent(t: Telemetry, f: Frame)
    requires Congruent(t)
    ensures Congruent(Applied(t, f))
  {
    if !Breaks(t, f) && Accumulates(t, f) {
      var p := t.lastPosition.value;
      WrapCongruent(f.position - p);
      CongruentSum(t.accumulated.value - p, WrappingDelta(f.position, p) - (f.position - p));
    }
  }

  lemma {:induction false} CongruentSum(x: int, y: int)
    requires WholeWraps(x) && WholeWraps(y)
    ensures WholeWraps(x + y)
  {
  }

  // ---------------------------------------------------------------------
  // Runs of frames without a reset
  // ---------------------------------------------------------------------

  function Run(t: Telemetry, frames: seq<Frame>): Telemetry {
    if frames == [] then t else Applied(Run(t, frames[..|frames| - 1]), frames[|frames| - 1])
  }

  lemma {:induction false} RunShaped(t: Telemetry, frames: seq<Frame>)
    requires Shaped(t)
    ensures Shaped(Run(t, frames))
    ensures frames != [] ==> Run(t, frames).lastPosition == Some(frames[|frames| - 1].position)
  {
    if frames != [] {
      RunShaped(t, frames[..|frames| - 1]);
      AppliedShaped(Run(t, frames[..|frames| - 1]), frames[|frames| - 1]);
    }
  }

  lemma {:induction false} RunCongruent(t: Telemetry, frames: seq<Frame>)
    requires Congruent(t)
    ensures Congruent(Run(t, frames))
  {
    if frames != [] {
      RunCongruent(t, frames[..|frames| - 1]);
      AppliedCongruent(Run(t, frames[..|frames| - 1]), frames[|frames| - 1]);
    }
  }

  /** Fewer frames than the segment counter can count. */
  predicate CounterHolds(t: Telemetry, frames: seq<Frame>) {
    t.segment + |frames| < 0x1_0000_0000_0000_0000
  }

  lemma {:induction false} SegmentStep(t: Telemetry, f: Frame)
    requires t.segment + 1 < 0x1_0000_0000_0000_0000
    ensures t.segment <= Applied(t, f).segment <= t.segment + 1
  {
  }

  lemma {:induction false} SegmentBounded(t: Telemetry, frames: seq<Frame>)
    requires CounterHolds(t, frames)
    ensures t.segment <= Run(t, frames).segment <= t.segment + |frames|
  {
    if frames != [] {
      SegmentBounded(t, frames[..|frames| - 1]);
      SegmentStep(Run(t, frames[..|frames| - 1]), frames[|frames| - 1]);
    }
  }

  lemma {:induction false} SegmentsGrow(t: Telemetry, frames: seq<Frame>, i: nat)
    requires CounterHolds(t, frames) && i <= |frames|
    ensures Run(t, frames[..i]).segment <= Run(t, frames).segment <= t.segment + |frames|
    decreases |frames|
  {
    var n := |frames| - 1;
    if i == |frames| {
      assert frames[..i] == frames;
      SegmentBounded(t, frames);
    } else {
      SegmentsGrow(t, frames[..n], i);
      assert frames[..n][..i] == frames[..i];
      SegmentStep(Run(t, frames[..n]), frames[n]);
    }
  }

  /** Sum of the modular deltas of the frames after index i. */
  function Deltas(frames: seq<Frame>, i: nat): int
    requires i < |frames|
    decreases |frames|
  {
    var n := |frames| - 1;
    if i == n then 0 else Deltas(frames[..n], i) + WrappingDelta(frames[n].position, frames[n - 1].position)
  }

  ghost predicate Unbroken(t: Telemetry, frames: seq<Frame>, i: nat) {
    forall j :: i < j < |frames| ==> !Breaks(Run(t, frames[..j]), frames[j])
  }

  /** `s` is the state after the frames up to index i. */
  lemma {:induction false} SegmentExtends(t: Telemetry, frames: seq<Frame>, i: nat, s: Telemetry)
    requires Shaped(t) && CounterHolds(t, frames) && i < |frames|
    requires s == Run(t, frames[..i + 1]) && s.valid && Run(t, frames).segment == s.segment
    ensures Extends(s, Run(t, frames), Deltas(frames, i))
    decreases |frames|
  {
    var n := |frames| - 1;
    if i == n {
      assert frames[..n + 1] == frames;
      RunShaped(t, frames);
      ExtendsItself(s);
    } else {
      SamePrefix(frames, i);
      LastStep(t, frames[..n], i, frames[n]);
      SegmentExtends(t, frames[..n], i, s);
      ExtendsLast(s, t, frames, i);
    }
  }

  lemma {:induction false} SamePrefix(frames: seq<Frame>, i: nat)
    requires i < |frames| - 1
    ensures frames[..|frames| - 1][..i + 1] == frames[..i + 1]
  {
  }

  /** The segment number cannot return to an earlier value. */
  lemma {:induction false} UnbrokenAt(t: Telemetry, frames: seq<Frame>, i: nat, j: nat)
    requires CounterHolds(t, frames) && i < j < |frames|
    requires Run(t, frames).segment == Run(t, frames[..i + 1]).segment
    ensures !Breaks(Run(t, frames[..j]), frames[j])
  {
    assert frames[..j + 1][..j] == frames[..j] && frames[..j][..i + 1] == frames[..i + 1];
    SegmentsGrow(t, frames[..j], i + 1);
    SegmentsGrow(t, frames, j + 1);
    SegmentsGrow(t, frames, j);
    ValidStep(Run(t, frames[..j]), frames[j]);
  }

  /**
    A snapshot with the segment number of an earlier valid snapshot is itself
    valid, the two differ in accumulated position by exactly the sum of the
    modular deltas between them, and no frame between them broke the history: a
    caller who missed a broken frame still notices.
   */
  lemma {:induction false} SegmentAccumulates(t: Telemetry, frames: seq<Frame>, i: nat)
    requires Shaped(t) && CounterHolds(t, frames) && i < |frames|
    requires Run(t, frames[..i + 1]).valid && Run(t, frames).segment == Run(t, frames[..i + 1]).segment
    ensures Extends(Run(t, frames[..i + 1]), Run(t, frames), Deltas(frames, i))
    ensures Unbroken(t, frames, i)
  {
    SegmentExtends(t, frames, i, Run(t, frames[..i + 1]));
    forall j | i < j < |frames|
      ensures !Breaks(Run(t, frames[..j]), frames[j])
    {
      UnbrokenAt(t, frames, i, j);
    }
  }

  lemma {:induction false} ExtendsLast(s: Telemetry, t: Telemetry, frames: seq<Frame>, i: nat)
    requires i < |frames| - 1 && Shaped(Run(t, frames[..|frames| - 1]))
    requires Run(t, frames[..|frames| - 1]).lastPosition == Some(frames[|frames| - 2].position)
    requires !Breaks(Run(t, frames[..|frames| - 1]), frames[|frames| - 1])
    requires Extends(s, Run(t, frames[..|frames| - 1]), Deltas(frames[..|frames| - 1], i))
    ensures Extends(s, Run(t, frames), Deltas(frames, i))
  {
    var n := |frames| - 1;
    ExtendsStep(s, Run(t, frames[..n]), Deltas(frames[..n], i), frames[n], frames[n - 1].position);
  }

  lemma {:induction false} ExtendsItself(s: Telemetry)
    requires Shaped(s) && s.valid
    ensures Extends(s, s, 0)
  {
  }

  /** Valid, of the same segment, and further along by the given sum. */
  predicate Extends(s: Telemetry, r: Telemetry, sum: int) {
    && s.accumulated.Some? && r.valid && r.segment == s.segment
    && r.accumulated == Some(s.accumulated.value + sum)
  }

  lemma {:induction false} ExtendsStep(s: Telemetry, r: Telemetry, sum: int, f: Frame, previous: Raw)
    requires Extends(s, r, sum) && Shaped(r) && r.lastPosition == Some(previous) && !Breaks(r, f)
    ensures Extends(s, Applied(r, f), sum + WrappingDelta(f.position, previous))
  {
  }

  /** The last frame neither broke the history nor followed a broken one. */
  lemma {:induction false} LastStep(t: Telemetry, before: seq<Frame>, i: nat, f: Frame)
    requires Shaped(t) && t.segment + |before| + 1 < 0x1_0000_0000_0000_0000 && i < |before|
    requires Applied(Run(t, before), f).segment == Run(t, before[..i + 1]).segment
    ensures Shaped(Run(t, before)) && Run(t, before).lastPosition == Some(before[|before| - 1].position)
    ensures !Breaks(Run(t, before), f) && Run(t, before).segment == Run(t, before[..i + 1]).segment
  {
    SegmentsGrow(t, before, i + 1);
    RunShaped(t, before);
    ValidStep(Run(t, before), f);
  }

  lemma {:induction false} ValidStep(t: Telemetry, f: Frame)
    requires t.segment + 1 < 0x1_0000_0000_0000_0000
    ensures Applied(t, f).segment == if Breaks(t, f) then t.segment + 1 else t.segment
  {
  }

  /** They agree with the raw positions up to whole wraps. */
  lemma {:induction false} DeltasTelescope(frames: seq<Frame>, i: nat)
    requires i < |frames|
    ensures WholeWraps(Deltas(frames, i) - (frames[|frames| - 1].position - frames[i].position))
    decreases |frames|
  {
    var n := |frames| - 1;
    if i < n {
      DeltasTelescope(frames[..n], i);
      WrapCongruent(frames[n].position - frames[n - 1].position);
      CongruentSum(Deltas(frames[..n], i) - (frames[n - 1].position - frames[i].position),
                   WrappingDelta(frames[n].position, frames[n - 1].position)
                   - (frames[n].position - frames[n - 1].position));
    }
  }

  // ---------------------------------------------------------------------
  // Against the true motion
  // ---------------------------------------------------------------------

  /** True multi-turn position in raw units, true device time, and host time of one frame. */
  datatype Truth = Truth(position: int, us: nat, hostNs: int)

  function Observed(w: Truth): Frame {
    Frame(Wrap(w.position), w.us % 0x1_0000, w.hostNs)
  }

  function ObservedAll(ws: seq<Truth>): (r: seq<Frame>)
    ensures |r| == |ws| && forall i :: 0 <= i < |ws| ==> r[i] == Observed(ws[i])
  {
    seq(|ws|, i requires 0 <= i < |ws| => Observed(ws[i]))
  }

  /** Under 128 revolutions from one frame to the next. */
  predicate Slow(x: int, y: int) {
    -0x8000_0000 <= y - x < 0x8000_0000
  }

  /** Every step after index i is under 128 revolutions. */
  ghost predicate SlowSince(ws: seq<Truth>, i: nat) {
    forall j :: i < j < |ws| ==> Slow(ws[j - 1].position, ws[j].position)
  }

  /**
    The summed deltas miss the true displacement by whole counter wraps (256
    revolutions), whatever the motion.
   */
  lemma {:induction false} DeltasCongruent(ws: seq<Truth>, i: nat)
    requires i < |ws|
    ensures WholeWraps(Deltas(ObservedAll(ws), i) - (ws[|ws| - 1].position - ws[i].position))
  {
    DeltasTelescope(ObservedAll(ws), i);
    DisplacementOf(Deltas(ObservedAll(ws), i), ws[i].position, ws[|ws| - 1].position);
  }

  lemma {:induction false} DisplacementOf(sum: int, x: int, y: int)
    requires WholeWraps(sum - (Wrap(y) - Wrap(x)))
    ensures WholeWraps(sum - (y - x))
  {
    WrapCongruent(x);
    WrapCongruent(y);
    CongruentSum(sum - (Wrap(y) - Wrap(x)), Wrap(y) - y);
    CongruentDifference(sum - (y - Wrap(x)), Wrap(x) - x);
  }

  lemma {:induction false} CongruentDifference(x: int, y: int)
    requires WholeWraps(x) && WholeWraps(y)
    ensures WholeWraps(x - y)
  {
  }

  /** They miss it by nothing if every step is under 128 revolutions. */
  lemma {:induction false} DeltasExact(ws: seq<Truth>, i: nat)
    requires i < |ws| && SlowSince(ws, i)
    ensures Deltas(ObservedAll(ws), i) == ws[|ws| - 1].position - ws[i].position
    decreases |ws|
  {
    var n := |ws| - 1;
    if i < n {
      assert Slow(ws[n - 1].position, ws[n].position);
      DeltasExact(ws[..n], i);
      DeltasStep(ws, i);
      ExactStep(Deltas(ObservedAll(ws), i), Deltas(ObservedAll(ws[..n]), i), ws[i].position, ws[n - 1].position,
                ws[n].position);
    }
  }

  lemma {:induction false} ExactStep(total: int, sum: int, origin: int, x: int, y: int)
    requires sum == x - origin && Slow(x, y) && total == sum + WrappingDelta(Wrap(y), Wrap(x))
    ensures total == y - origin
  {
    DeltaExact(x, y);
  }

  lemma {:induction false} DeltasStep(ws: seq<Truth>, i: nat)
    requires i < |ws| - 1
    ensures var n := |ws| - 1;
            Deltas(ObservedAll(ws), i)
            == Deltas(ObservedAll(ws[..n]), i) + WrappingDelta(Wrap(ws[n].position), Wrap(ws[n - 1].position))
  {
    assert ObservedAll(ws)[..|ws| - 1] == ObservedAll(ws[..|ws| - 1]);
  }

  /** Measured and true displacement agree up to whole wraps, and exactly if every step was slow. */
  ghost predicate Measures(measured: int, ws: seq<Truth>, i: nat)
    requires i < |ws|
  {
    var moved := ws[|ws| - 1].position - ws[i].position;
    WholeWraps(measured - moved) && (SlowSince(ws, i) ==> measured == moved)
  }

  lemma {:induction false} DeltasMeasure(ws: seq<Truth>, i: nat)
    requires i < |ws|
    ensures Measures(Deltas(ObservedAll(ws), i), ws, i)
  {
    DeltasCongruent(ws, i);
    if SlowSince(ws, i) {
      DeltasExact(ws, i);
    }
  }

  /** Within one segment the accumulated position measures true displacement. */
  lemma {:induction false} SegmentMeasuresDisplacement(t: Telemetry, ws: seq<Truth>, i: nat)
    requires i < |ws| && Shaped(t) && CounterHolds(t, ObservedAll(ws))
    requires Run(t, ObservedAll(ws)[..i + 1]).valid
    requires Run(t, ObservedAll(ws)).segment == Run(t, ObservedAll(ws)[..i + 1]).segment
    ensures var s, s' := Run(t, ObservedAll(ws)[..i + 1]), Run(t, ObservedAll(ws));
            s.accumulated.Some? && s'.accumulated.Some? && Measures(s'.accumulated.value - s.accumulated.value, ws, i)
  {
    DeltasMeasure(ws, i);
    SegmentExtends(t, ObservedAll(ws), i, Run(t, ObservedAll(ws)[..i + 1]));
    ExtendsMeasures(Run(t, ObservedAll(ws)[..i + 1]), Run(t, ObservedAll(ws)), Deltas(ObservedAll(ws), i), ws, i);
  }

  lemma {:induction false} ExtendsMeasures(s: Telemetry, s': Telemetry, sum: int, ws: seq<Truth>, i: nat)
    requires i < |ws| && Extends(s, s', sum) && Measures(sum, ws, i)
    ensures s.accumulated.Some? && s'.accumulated.Some? && Measures(s'.accumulated.value - s.accumulated.value, ws, i)
  {
    assert s'.accumulated.value - s.accumulated.value == sum;
  }

  // ---------------------------------------------------------------------
  // Timestamp aliasing
  // ---------------------------------------------------------------------

  /** Host receive gap and device elapsed time agree within the tolerance. */
  predicate Agrees(hostGapNs: int, elapsedUs: nat, toleranceNs: nat) {
    -(toleranceNs as int) <= hostGapNs - 1000 * elapsedUs <= toleranceNs
  }

  /** The test that lets a frame continue the history, given both gaps. */
  predicate Continuous(hostGapNs: int, elapsedUs: nat) {
    hostGapNs <= 50_000_000 && 1 <= elapsedUs % 0x1_0000 <= 50_000
  }

  ghost predicate AliasFree(toleranceNs: nat) {
    forall hostGapNs: int, elapsedUs: nat ::
      Agrees(hostGapNs, elapsedUs, toleranceNs) && Continuous(hostGapNs, elapsedUs) ==> elapsedUs < 0x1_0000
  }

  /** The exact tolerance under which no accepted frame has an aliased timestamp. */
  lemma {:induction false} AliasingBoundExact(toleranceNs: nat)
    ensures AliasFree(toleranceNs) <==> toleranceNs < 15_537_000
  {
    if toleranceNs < 15_537_000 {
      forall hostGapNs: int, elapsedUs: nat
        | Agrees(hostGapNs, elapsedUs, toleranceNs) && Continuous(hostGapNs, elapsedUs)
        ensures elapsedUs < 0x1_0000
      {
        assert elapsedUs <= 0x1_0000;
      }
    } else {
      assert Agrees(50_000_000, 65_537, toleranceNs) && Continuous(50_000_000, 65_537);
    }
  }

  lemma {:induction false} StampsModulo(a: nat, b: nat)
    ensures StampDelta(b % 0x1_0000, a % 0x1_0000) == (b - a) % 0x1_0000
  {
  }

  lemma {:induction false} AcceptedIsElapsed(a: Truth, b: Truth)
    requires a.us <= b.us && Agrees(b.hostNs - a.hostNs, b.us - a.us, 15_536_999)
    requires b.hostNs - a.hostNs <= MAX_GAP_NS
    requires 1 <= StampDelta(b.us % 0x1_0000, a.us % 0x1_0000) <= 50_000
    ensures StampDelta(b.us % 0x1_0000, a.us % 0x1_0000) == b.us - a.us
  {
    StampsModulo(a.us, b.us);
    assert Continuous(b.hostNs - a.hostNs, b.us - a.us);
    AliasingBoundExact(15_536_999);
  }

  /** The telemetry holds the reading of frame `w`. */
  predicate Holds(t: Telemetry, w: Truth) {
    && t.lastPosition == Some(Observed(w).position) && t.lastTimestampUs == Some(Observed(w).timestampUs)
    && t.lastTpdo1 == Some(w.hostNs)
  }

  /** The host received b at most 50 ms after a, and the u16 clocks of the two are 1 to 50000 us apart. */
  predicate InTime(a: Truth, b: Truth) {
    b.hostNs - a.hostNs <= 50_000_000 && 1 <= (b.us - a.us) % 0x1_0000 <= 50_000
  }

  lemma {:induction false} BreaksExactly(t: Telemetry, a: Truth, b: Truth)
    requires Holds(t, a)
    ensures !Breaks(t, Observed(b)) <==> InTime(a, b)
    ensures a.us <= b.us ==> (InTime(a, b) <==> Continuous(b.hostNs - a.hostNs, b.us - a.us))
  {
    StampsModulo(a.us, b.us);
  }

  /** The frame b is taken as the continuation of the valid history held in t. */
  predicate Continued(t: Telemetry, a: Truth, b: Truth, t': Telemetry) {
    && t'.valid && t'.segment == t.segment && t.accumulated.Some? && t'.velocity.Some?
    && t'.accumulated == Some(t.accumulated.value + Wrap(Wrap(b.position) - Wrap(a.position)))
  }

  /** Its accumulated position starts at the raw position. */
  predicate Restarted(t: Telemetry, b: Truth, t': Telemetry) {
    t'.valid && t'.segment == t.segment && t'.accumulated == Some(Wrap(b.position)) && t'.velocity.None?
  }

  predicate Broken(t: Telemetry, t': Telemetry) {
    !t'.valid && t'.segment == (t.segment + 1) % 0x1_0000_0000_0000_0000 && t'.accumulated.None? && t'.velocity.None?
  }

  /**
    After any frame a, the next frame b within both limits extends the history if a
    left a valid one, and otherwise starts one at its raw position; any other frame
    breaks it and opens the next segment. The first frame ever starts a history.
   */
  lemma {:induction false} NextFrameExactly(t: Telemetry, a: Truth, b: Truth)
    requires Shaped(t)
    ensures var t' := Applied(t, Observed(b));
            && Shaped(t') && Holds(t', b)
            && (t.lastPosition.None? ==> Restarted(t, b, t'))
            && (Holds(t, a) ==> if !InTime(a, b) then Broken(t, t')
                                else if t.valid then Continued(t, a, b, t') else Restarted(t, b, t'))
  {
    if Holds(t, a) {
      BreaksExactly(t, a, b);
    }
  }

  /** A break costs one frame: the next one in time is valid again, at its raw position, in the new segment. */
  lemma {:induction false} BreakRecovers(t: Telemetry, a: Truth, b: Truth, c: Truth)
    requires Shaped(t) && Holds(t, a) && !InTime(a, b) && InTime(b, c)
    ensures var t' := Applied(Applied(t, Observed(b)), Observed(c));
            && t'.valid && t'.accumulated == Some(Wrap(c.position)) && t'.velocity.None?
            && t'.segment == (t.segment + 1) % 0x1_0000_0000_0000_0000
  {
    NextFrameExactly(t, a, b);
    NextFrameExactly(Applied(t, Observed(b)), b, c);
  }

  /** Every frame is in time after the one before it. */
  ghost predicate Steady(ws: seq<Truth>) {
    forall j :: 0 < j < |ws| ==> InTime(ws[j - 1], ws[j])
  }

  /**
    A stream of frames after a reset, each in time after the one before: every
    snapshot is valid and in segment 0, and the accumulated position is the first raw
    position plus the true displacement, up to whole wraps, and exactly so if no step
    reaches 128 revolutions.
   */
  lemma {:induction false} SteadyStreamMeasures(ws: seq<Truth>)
    requires ws != [] && Steady(ws)
    ensures var s := Run(RESET, ObservedAll(ws));
            && Shaped(s) && Holds(s, ws[|ws| - 1]) && s.valid && s.segment == 0 && s.accumulated.Some?
            && Measures(s.accumulated.value - Wrap(ws[0].position), ws, 0)
  {
    SteadyStreamAccumulates(ws);
    DeltasMeasure(ws, 0);
  }

  lemma {:induction false} SteadyStreamAccumulates(ws: seq<Truth>)
    requires ws != [] && Steady(ws)
    ensures var s := Run(RESET, ObservedAll(ws));
            && Shaped(s) && Holds(s, ws[|ws| - 1]) && s.valid && s.segment == 0
            && s.accumulated == Some(Wrap(ws[0].position) + Deltas(ObservedAll(ws), 0))
    decreases |ws|
  {
    var n := |ws| - 1;
    assert ObservedAll(ws)[..n] == ObservedAll(ws[..n]);
    if n > 0 {
      SteadyStreamAccumulates(ws[..n]);
      assert InTime(ws[n - 1], ws[n]);
      NextFrameExactly(Run(RESET, ObservedAll(ws[..n])), ws[n - 1], ws[n]);
      DeltasStep(ws, 0);
    } else {
      ResetIsConsistent();
      NextFrameExactly(RESET, ws[0], ws[0]);
    }
  }

  /**
    If the clocks agree within that tolerance, a frame accepted as continuous
    reports true displacement over true elapsed time.
   */
  lemma {:induction false} VelocityIsTrue(t: Telemetry, a: Truth, b: Truth)
    requires Shaped(t) && t.valid && Holds(t, a)
    requires a.us <= b.us && Agrees(b.hostNs - a.hostNs, b.us - a.us, 15_536_999)
    requires Slow(a.position, b.position)
    requires InTime(a, b)
    ensures a.us < b.us
    ensures Applied(t, Observed(b)).velocity
            == Some((b.position - a.position) as real / 16777216.0 * 1000000.0 / (b.us - a.us) as real)
  {
    AcceptedVelocity(t, a, b);
    VelocityMeans(b.position - a.position, b.us - a.us);
  }

  lemma {:induction false} VelocityMeans(delta: int, dtUs: nat)
    requires dtUs > 0
    ensures Velocity(delta, dtUs) == delta as real / 16777216.0 * 1000000.0 / dtUs as real
  {
  }

  lemma {:induction false} AcceptedVelocity(t: Telemetry, a: Truth, b: Truth)
    requires Shaped(t) && t.valid && Holds(t, a) && a.us <= b.us && InTime(a, b)
    requires Agrees(b.hostNs - a.hostNs, b.us - a.us, 15_536_999) && Slow(a.position, b.position)
    ensures a.us < b.us && Applied(t, Observed(b)).velocity == Some(Velocity(b.position - a.position, b.us - a.us))
  {
    BreaksExactly(t, a, b);
    StampsModulo(a.us, b.us);
    AcceptedIsElapsed(a, b);
    DeltaExact(a.position, b.position);
    ReportedVelocity(t, Observed(b));
  }

  lemma {:induction false} ReportedVelocity(t: Telemetry, f: Frame)
    requires Shaped(t) && t.valid && t.lastPosition.Some? && !Breaks(t, f)
    ensures var dt := StampDelta(f.timestampUs, t.lastTimestampUs.value);
            dt > 0 && Applied(t, f).velocity == Some(Velocity(WrappingDelta(f.position, t.lastPosition.value), dt))
  {
  }

  // ---------------------------------------------------------------------
  // What the segment number does not cover
  // ---------------------------------------------------------------------

  /**
    A telemetry reset within one session reuses segment 0: for a motor that did
    not move, two valid snapshots of one segment then differ by 256 revolutions.
   */
  lemma {:induction false} SegmentReusedAfterReset()
    ensures var first, second := Frame(0x7000_0000, 0, 0), Frame(-0x7000_0000, 1000, 1_000_000);
            var s, s' := Applied(Applied(RESET, first), second), Applied(RESET, second);
            && s.valid && s'.valid && s.segment == s'.segment && s.lastPosition == s'.lastPosition
            && s.accumulated.value - s'.accumulated.value == 0x1_0000_0000
  {
  }

  /** The frame that the accumulated position after a reset starts from. */
  function StartOf(frames: seq<Frame>): nat
    requires frames != []
    ensures StartOf(frames) < |frames|
  {
    var before := frames[..|frames| - 1];
    if before != [] && Run(RESET, before).valid && !Breaks(Run(RESET, before), frames[|frames| - 1])
      then StartOf(before)
    else |frames| - 1
  }

  lemma {:induction false} StartsAtRawPosition(frames: seq<Frame>)
    requires frames != [] && Run(RESET, frames).valid
    ensures Run(RESET, frames).accumulated == Some(frames[StartOf(frames)].position + Deltas(frames, StartOf(frames)))
  {
    var n := |frames| - 1;
    var before := Run(RESET, frames[..n]);
    ResetIsConsistent();
    RunShaped(RESET, frames[..n]);
    if n > 0 && before.valid && !Breaks(before, frames[n]) {
      StartsAtRawPosition(frames[..n]);
      AccumulatesDelta(before, frames[n], frames[n - 1].position);
    } else {
      StartsAfresh(before, frames[n]);
    }
  }

  lemma {:induction false} AccumulatesDelta(t: Telemetry, f: Frame, previous: Raw)
    requires Shaped(t) && t.valid && t.lastPosition == Some(previous) && !Breaks(t, f)
    ensures t.accumulated.Some?
    ensures Applied(t, f).accumulated == Some(t.accumulated.value + WrappingDelta(f.position, previous))
  {
  }

  lemma {:induction false} StartsAfresh(t: Telemetry, f: Frame)
    requires Shaped(t) && (!t.valid || Breaks(t, f)) && Applied(t, f).valid
    ensures Applied(t, f).accumulated == Some(f.position)
  {
  }

  /** In segment 0 that is the first frame after the reset. */
  lemma {:induction false} SegmentZeroStartsAtReset(frames: seq<Frame>)
    requires frames != [] && CounterHolds(RESET, frames) && Run(RESET, frames).segment == 0
    ensures StartOf(frames) == 0 && Run(RESET, frames).valid
  {
    var n := |frames| - 1;
    var before := Run(RESET, frames[..n]);
    SegmentsGrow(RESET, frames, n);
    RunShaped(RESET, frames);
    ValidStep(before, frames[n]);
    if n > 0 {
      SegmentZeroStartsAtReset(frames[..n]);
    } else {
      assert frames[..n] == [];
    }
  }

  lemma {:induction false} DeltasAdd(frames: seq<Frame>, i: nat, m: nat)
    requires i <= m < |frames|
    ensures Deltas(frames, i) == Deltas(frames[..m + 1], i) + Deltas(frames, m)
    decreases |frames|
  {
    var n := |frames| - 1;
    if m < n {
      DeltasAdd(frames[..n], i, m);
      assert frames[..n][..m + 1] == frames[..m + 1];
    } else {
      assert frames[..m + 1] == frames;
    }
  }

  lemma {:induction false} DeltasOfSuffix(earlier: seq<Frame>, frames: seq<Frame>, i: nat)
    requires i < |frames|
    ensures Deltas(earlier + frames, |earlier| + i) == Deltas(frames, i)
    decreases |frames|
  {
    var n := |frames| - 1;
    if i < n {
      DeltasOfSuffix(earlier, frames[..n], i);
      assert (earlier + frames)[..|earlier| + n] == earlier + frames[..n];
    }
  }

  predicate InRawRange(x: int) {
    -0x8000_0000 <= x < 0x8000_0000
  }

  lemma {:induction false} CongruentToRaw(x: int, r: Raw)
    requires WholeWraps(x - r)
    ensures x == r <==> InRawRange(x)
  {
  }

  /**
    When a reset may be ignored, exactly. `upTo` are the frames up to a valid
    snapshot, `between` those received after it and before the last reset, however
    many resets there were, `after` those since. A valid snapshot at the end,
    whatever its segment number, has moved by the sum of the modular deltas if and
    only if the position continued without any reset would have been within the
    raw range of 256 revolutions at the frame where the new history starts.
   */
  lemma {:induction false} AcrossResetExact(t: Telemetry, upTo: seq<Frame>, between: seq<Frame>, after: seq<Frame>)
    requires Shaped(t) && Congruent(t) && upTo != [] && Run(t, upTo).valid
    requires after != [] && Run(RESET, after).valid
    ensures var s, s' := Run(t, upTo), Run(RESET, after);
            var all, i, m := upTo + between + after, |upTo| - 1, |upTo + between| + StartOf(after);
            && s.accumulated.Some?
            && (s'.accumulated == Some(s.accumulated.value + Deltas(all, i))
                <==> InRawRange(s.accumulated.value + Deltas(all[..m + 1], i)))
  {
    RunShaped(t, upTo);
    RunCongruent(t, upTo);
    assert (upTo + between)[|upTo| - 1] == upTo[|upTo| - 1];
    RestartAfter(Run(t, upTo), upTo + between, |upTo| - 1, after);
  }

  lemma {:induction false} RestartAfter(s: Telemetry, earlier: seq<Frame>, i: nat, after: seq<Frame>)
    requires i < |earlier| && Shaped(s) && s.valid && Congruent(s) && s.lastPosition == Some(earlier[i].position)
    requires after != [] && Run(RESET, after).valid
    ensures var all, m := earlier + after, |earlier| + StartOf(after);
            && s.accumulated.Some?
            && (Run(RESET, after).accumulated == Some(s.accumulated.value + Deltas(all, i))
                <==> InRawRange(s.accumulated.value + Deltas(all[..m + 1], i)))
  {
    StartsWithin(earlier, after);
    assert (earlier + after)[i] == earlier[i];
    RestartExact(s, earlier + after, i, |earlier| + StartOf(after));
  }

  lemma {:induction false} StartsWithin(earlier: seq<Frame>, after: seq<Frame>)
    requires after != [] && Run(RESET, after).valid
    ensures var all, m := earlier + after, |earlier| + StartOf(after);
            Run(RESET, after).accumulated == Some(all[m].position + Deltas(all, m))
  {
    StartsAtRawPosition(after);
    DeltasOfSuffix(earlier, after, StartOf(after));
  }

  lemma {:induction false} RestartExact(s: Telemetry, all: seq<Frame>, i: nat, m: nat)
    requires i <= m < |all| && Shaped(s) && s.valid && Congruent(s) && s.lastPosition == Some(all[i].position)
    ensures s.accumulated.Some?
    ensures all[m].position + Deltas(all, m) == s.accumulated.value + Deltas(all, i)
            <==> InRawRange(s.accumulated.value + Deltas(all[..m + 1], i))
  {
    DeltasAdd(all, i, m);
    DeltasTelescope(all[..m + 1], i);
    ContinuedIsCongruent(s, Deltas(all[..m + 1], i), all[i].position, all[m].position);
  }

  lemma {:induction false} ContinuedIsCongruent(s: Telemetry, moved: int, p: Raw, q: Raw)
    requires Shaped(s) && s.valid && Congruent(s) && s.lastPosition == Some(p) && WholeWraps(moved - (q - p))
    ensures s.accumulated.Some? && (s.accumulated.value + moved == q <==> InRawRange(s.accumulated.value + moved))
  {
    CongruentSum(s.accumulated.value - p, moved - (q - p));
    CongruentToRaw(s.accumulated.value + moved, q);
  }
}
