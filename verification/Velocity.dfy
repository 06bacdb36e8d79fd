/**
  The velocity filter of src/cia402/velocity.rs.

  Floating point is replaced by exact reals; times are in seconds and positions
  in revolutions, as in the source. Timestamps are u32 microseconds and wrap.
 */
module Velocity {
  import opened Wrappers
  import opened LeastSquares

  const DISCONTINUITY_GAP_S: real := 0.5
  const MIN_DENOMINATOR: real := 0.000000000001
  const MICROSECOND: real := 0.000001

  datatype Sample = Sample(t: real, p: real)

  /** One TPDO1 frame together with the window in force when it is processed. */
  datatype Frame = Frame(tsUs: nat, posRev: real, windowS: real)

  datatype Estimator = Estimator(
    lastRawPos: Option<real>, lastTsUs: Option<nat>, accumPos: real, accumTimeS: real, samples: seq<Sample>)

  const FRESH: Estimator := Estimator(None, None, 0.0, 0.0, [])

  function WrappingSub(a: nat, b: nat): (d: nat)
    ensures d < 0x1_0000_0000
  {
    (a - b) % 0x1_0000_0000
  }

  function ElapsedS(previousUs: nat, tsUs: nat): real {
    WrappingSub(tsUs, previousUs) as real * 0.000001
  }

  function Unwrap(d: real): real {
    if d > 0.5 then d - 1.0 else if d < -0.5 then d + 1.0 else d
  }

  /** The frame continues the history; any other frame becomes a new baseline. */
  predicate Continues(e: Estimator, tsUs: nat) {
    && e.lastRawPos.Some? && e.lastTsUs.Some?
    && 0.0 < ElapsedS(e.lastTsUs.value, tsUs) <= DISCONTINUITY_GAP_S
  }

  function Baseline(f: Frame): Estimator {
    Estimator(Some(f.posRev), Some(f.tsUs), 0.0, 0.0, [Sample(0.0, 0.0)])
  }

  /** The whole-history filter: like the source's filter, but it never drops a sample. */
  function Recorded(e: Estimator, f: Frame): Estimator {
    if Continues(e, f.tsUs) then
      var p := e.accumPos + Unwrap(f.posRev - e.lastRawPos.value);
      var t := e.accumTimeS + ElapsedS(e.lastTsUs.value, f.tsUs);
      Estimator(Some(f.posRev), Some(f.tsUs), p, t, e.samples + [Sample(t, p)])
    else
      Baseline(f)
  }

  function Trim(s: seq<Sample>, cutoff: real): seq<Sample> {
    if |s| > 2 && s[0].t < cutoff then Trim(s[1..], cutoff) else s
  }

  function Updated(e: Estimator, f: Frame): Estimator {
    var g := Recorded(e, f);
    if Continues(e, f.tsUs) then g.(samples := Trim(g.samples, g.accumTimeS - f.windowS)) else g
  }

  function Times(s: seq<Sample>): (r: seq<real>)
    ensures |r| == |s| && forall i :: 0 <= i < |s| ==> r[i] == s[i].t
  {
    seq(|s|, i requires 0 <= i < |s| => s[i].t)
  }

  function Positions(s: seq<Sample>): (r: seq<real>)
    ensures |r| == |s| && forall i :: 0 <= i < |s| ==> r[i] == s[i].p
  {
    seq(|s|, i requires 0 <= i < |s| => s[i].p)
  }

  function Numerator(s: seq<Sample>): real {
    SpreadOf(Times(s), Positions(s))
  }

  function Denominator(s: seq<Sample>): real {
    SpreadOf(Times(s), Times(s))
  }

  function Slope(s: seq<Sample>): Option<real> {
    if |s| < 2 || -MIN_DENOMINATOR < Denominator(s) < MIN_DENOMINATOR then None
    else Some(Numerator(s) / Denominator(s))
  }

  class VelocityEstimator {
    var lastRawPos: Option<real>
    var lastTsUs: Option<nat>
    var accumPos: real
    var accumTimeS: real
    var samples: seq<Sample>

    function State(): Estimator
      reads this
    {
      Estimator(lastRawPos, lastTsUs, accumPos, accumTimeS, samples)
    }

    constructor ()
      ensures State() == FRESH
    {
      lastRawPos, lastTsUs, accumPos, accumTimeS, samples := None, None, 0.0, 0.0, [];
    }

    method Update(f: Frame) returns (slope: Option<real>)
      modifies this
      ensures State() == Updated(old(State()), f)
      ensures slope == if Continues(old(State()), f.tsUs) then Slope(State().samples) else None
      ensures Orderly(old(State())) ==>
                && Orderly(State())
                && (slope.Some? <==> Continues(old(State()), f.tsUs))
                && (slope.Some? ==> BestFit(Times(samples), Positions(samples), slope.value))
    {
      ghost var before := State();
      if lastRawPos.None? || lastTsUs.None? {
        ResetTo(f);
        return None;
      }
      var dtS := ElapsedS(lastTsUs.value, f.tsUs);
      if dtS <= 0.0 || dtS > DISCONTINUITY_GAP_S {
        ResetTo(f);
        return None;
      }
      var dpos := f.posRev - lastRawPos.value;
      if dpos > 0.5 {
        dpos := dpos - 1.0;
      } else if dpos < -0.5 {
        dpos := dpos + 1.0;
      }
      accumPos := accumPos + dpos;
      accumTimeS := accumTimeS + dtS;
      lastRawPos := Some(f.posRev);
      lastTsUs := Some(f.tsUs);
      samples := samples + [Sample(accumTimeS, accumPos)];
      assert State() == Recorded(old(State()), f);
      DropOlderThan(accumTimeS - f.windowS);
      slope := LeastSquaresSlope();
      if Orderly(before) {
        UpdatedFits(before, f);
      }
    }

    method DropOlderThan(cutoff: real)
      modifies this
      ensures State() == old(State()).(samples := Trim(old(samples), cutoff))
    {
      while |samples| > 2 && samples[0].t < cutoff
        invariant Trim(samples, cutoff) == Trim(old(samples), cutoff)
        invariant State() == old(State()).(samples := samples)
        decreases |samples|
      {
        samples := samples[1..];
      }
    }

    method ResetTo(f: Frame)
      modifies this
      ensures State() == Baseline(f)
    {
      lastRawPos := Some(f.posRev);
      lastTsUs := Some(f.tsUs);
      accumPos := 0.0;
      accumTimeS := 0.0;
      samples := [Sample(0.0, 0.0)];
    }

    method LeastSquaresSlope() returns (slope: Option<real>)
      ensures slope == Slope(samples)
      ensures Spaced(samples) ==>
                && (slope.Some? <==> |samples| >= 2)
                && (slope.Some? ==> BestFit(Times(samples), Positions(samples), slope.value))
    {
      if Spaced(samples) {
        SlopeFits(samples);
      }
      var n := |samples|;
      if n < 2 {
        return None;
      }
      var st, sp, stt, stp := 0.0, 0.0, 0.0, 0.0;
      ghost var ts, ps := Times(samples), Positions(samples);
      for i := 0 to n
        invariant st == Sum(ts[..i]) && sp == Sum(ps[..i])
        invariant stt == Dot(ts[..i], ts[..i]) && stp == Dot(ts[..i], ps[..i])
      {
        var t, p := samples[i].t, samples[i].p;
        assert ts[..i + 1][..i] == ts[..i] && ps[..i + 1][..i] == ps[..i];
        st := st + t;
        sp := sp + p;
        stt := stt + Mul(t, t);
        stp := stp + Mul(t, p);
      }
      assert ts[..n] == ts && ps[..n] == ps;
      var denom := Spread(n as real, stt, st, st);
      if -MIN_DENOMINATOR < denom < MIN_DENOMINATOR {
        return None;
      }
      slope := Some(Spread(n as real, stp, st, sp) / denom);
    }
  }

  // ---------------------------------------------------------------------
  // The slope is the least-squares slope
  // ---------------------------------------------------------------------

  /** The denominator is the sum of squared pairwise time differences, and the guard against a small one never fires. */
  lemma {:induction false} SlopeIsDefined(s: seq<Sample>)
    requires |s| >= 2 && Spaced(s)
    ensures Denominator(s) == Pairs(Times(s), Times(s)) >= MIN_DENOMINATOR
    ensures Slope(s).Some?
  {
    SpreadIsPairs(Times(s), Times(s));
    PairsPositive(Times(s), MICROSECOND);
  }

  /** The slope of a window is that of the line of least squared error through its samples, and no other number is. */
  lemma {:induction false} SlopeIsBestFit(s: seq<Sample>, v: real)
    requires |s| >= 2 && Spaced(s)
    ensures BestFit(Times(s), Positions(s), v) <==> Slope(s) == Some(v)
  {
    SlopeIsDefined(s);
    assert s[1].t - s[0].t >= MICROSECOND;
    QuotientTimes(Numerator(s), Denominator(s));
    QuotientIsBestFit(Times(s), Positions(s), Slope(s).value, v);
  }

  lemma {:induction false} QuotientTimes(n: real, d: real)
    requires d > 0.0
    ensures Mul(n / d, d) == n
  {
  }

  lemma {:induction false} SlopeFits(s: seq<Sample>)
    requires Spaced(s)
    ensures Slope(s).Some? <==> |s| >= 2
    ensures Slope(s).Some? ==> BestFit(Times(s), Positions(s), Slope(s).value)
  {
    if |s| >= 2 {
      SlopeIsDefined(s);
      SlopeIsBestFit(s, Slope(s).value);
    }
  }

  lemma {:induction false} UpdatedFits(e: Estimator, f: Frame)
    requires Orderly(e)
    ensures Orderly(Updated(e, f))
    ensures Continues(e, f.tsUs) ==> |Updated(e, f).samples| >= 2
  {
    if Continues(e, f.tsUs) {
      RecordedOrderly(e, f);
      TrimIsSpaced(Recorded(e, f).samples, Cutoff(Recorded(e, f), f));
    }
  }

  lemma {:induction false} TrimIsSpaced(s: seq<Sample>, cutoff: real)
    requires |s| >= 2 && Spaced(s)
    ensures var kept := Trim(s, cutoff);
            |kept| >= 2 && Spaced(kept) && kept[|kept| - 1] == s[|s| - 1]
  {
    TrimIsSuffix(s, cutoff);
    SuffixIsSpaced(Trim(s, cutoff), s);
  }

  lemma {:induction false} SuffixIsSpaced(s: seq<Sample>, h: seq<Sample>)
    requires IsSuffix(s, h) && Spaced(h)
    ensures Spaced(s) && s[|s| - 1] == h[|h| - 1]
  {
    forall i, j | 0 <= i < j < |s|
      ensures s[j].t - s[i].t >= MICROSECOND
    {
      assert s[j] == h[|h| - |s| + j] && s[i] == h[|h| - |s| + i];
    }
  }

  // ---------------------------------------------------------------------
  // The incremental window refines the whole-history filter
  // ---------------------------------------------------------------------

  function Run(frames: seq<Frame>): Estimator {
    if frames == [] then FRESH else Updated(Run(frames[..|frames| - 1]), frames[|frames| - 1])
  }

  function RunRecorded(frames: seq<Frame>): Estimator {
    if frames == [] then FRESH else Recorded(RunRecorded(frames[..|frames| - 1]), frames[|frames| - 1])
  }

  /** A suffix of `h` starting at `k` may be retained: two samples, or nothing older than the cutoff. */
  predicate Retainable(h: seq<Sample>, k: nat, cutoff: real)
    requires k <= |h|
  {
    |h| - k <= 2 || h[k].t >= cutoff
  }

  /** `s` is the longest suffix of the history `h` that may be retained. */
  ghost predicate IsLongestSuffix(s: seq<Sample>, h: seq<Sample>, cutoff: real) {
    && |s| <= |h| && s == h[|h| - |s|..]
    && Retainable(h, |h| - |s|, cutoff)
    && forall k :: 0 <= k < |h| - |s| ==> !Retainable(h, k, cutoff)
  }

  /** Consecutive samples are at least one microsecond apart. */
  ghost predicate Spaced(s: seq<Sample>) {
    forall i, j :: 0 <= i < j < |s| ==> s[j].t - s[i].t >= MICROSECOND
  }

  ghost predicate EndsAt(s: seq<Sample>, e: Estimator) {
    s != [] && s[|s| - 1] == Sample(e.accumTimeS, e.accumPos)
  }

  lemma {:induction false} TrimIsLongestSuffix(s: seq<Sample>, cutoff: real)
    ensures IsLongestSuffix(Trim(s, cutoff), s, cutoff)
  {
    if |s| > 2 && s[0].t < cutoff {
      var rest := s[1..];
      TrimIsLongestSuffix(rest, cutoff);
      var kept := Trim(rest, cutoff);
      forall k | 0 <= k < |s| - |kept|
        ensures !Retainable(s, k, cutoff)
      {
        if k > 0 {
          assert !Retainable(rest, k - 1, cutoff);
        }
      }
      assert Retainable(rest, |rest| - |kept|, cutoff);
    }
  }

  lemma {:induction false} WholeMicroseconds(previousUs: nat, tsUs: nat)
    ensures ElapsedS(previousUs, tsUs) > 0.0 ==> ElapsedS(previousUs, tsUs) >= MICROSECOND
  {
    var d := WrappingSub(tsUs, previousUs);
    assert d == 0 || d as real >= 1.0;
  }

  /** `s` is what is left of `h` after dropping samples from the front. */
  predicate IsSuffix(s: seq<Sample>, h: seq<Sample>) {
    0 < |s| <= |h| && s == h[|h| - |s|..]
  }

  /** The two filters differ only in the samples they keep, and what is kept is a suffix. */
  predicate KeepsSuffix(e: Estimator, h: Estimator) {
    && e == h.(samples := e.samples)
    && h.lastRawPos.Some? && h.lastTsUs.Some?
    && IsSuffix(e.samples, h.samples)
  }

  /** The history is in time order and ends with the accumulated totals. */
  ghost predicate Orderly(h: Estimator) {
    Spaced(h.samples) && EndsAt(h.samples, h)
  }

  lemma {:induction false} SpacedAppend(s: seq<Sample>, x: Sample)
    requires Spaced(s) && s != [] && x.t - s[|s| - 1].t >= MICROSECOND
    ensures Spaced(s + [x])
  {
    var all := s + [x];
    forall i, j | 0 <= i < j < |all|
      ensures all[j].t - all[i].t >= MICROSECOND
    {
      if j == |s| && i < |s| - 1 {
        assert s[|s| - 1].t - s[i].t >= MICROSECOND;
      }
    }
  }

  lemma {:induction false} RecordedOrderly(h: Estimator, f: Frame)
    requires Orderly(h)
    ensures Orderly(Recorded(h, f))
  {
    if Continues(h, f.tsUs) {
      WholeMicroseconds(h.lastTsUs.value, f.tsUs);
      SpacedAppend(h.samples, Sample(Recorded(h, f).accumTimeS, Recorded(h, f).accumPos));
    }
  }

  lemma {:induction false} HistoryIsOrderly(frames: seq<Frame>)
    requires frames != []
    ensures Orderly(RunRecorded(frames))
  {
    var n := |frames| - 1;
    if n > 0 {
      HistoryIsOrderly(frames[..n]);
      RecordedOrderly(RunRecorded(frames[..n]), frames[n]);
    } else {
      assert frames[..n] == [];
    }
  }

  lemma {:induction false} SuffixAppend(s: seq<Sample>, h: seq<Sample>, x: Sample)
    requires IsSuffix(s, h)
    ensures IsSuffix(s + [x], h + [x])
  {
  }

  lemma {:induction false} SuffixOfSuffix(r: seq<Sample>, s: seq<Sample>, h: seq<Sample>)
    requires IsSuffix(r, s) && IsSuffix(s, h)
    ensures IsSuffix(r, h)
  {
  }

  lemma {:induction false} KeepsSuffixStep(e: Estimator, h: Estimator, f: Frame)
    requires KeepsSuffix(e, h)
    ensures KeepsSuffix(Updated(e, f), Recorded(h, f))
    ensures Continues(e, f.tsUs) ==> |Updated(e, f).samples| >= 2
  {
    if Continues(e, f.tsUs) {
      var g := Recorded(e, f);
      var x, cutoff := Sample(g.accumTimeS, g.accumPos), Cutoff(g, f);
      UpdatedByParts(e, h, f);
      SuffixAppend(e.samples, h.samples, x);
      TrimIsSuffix(e.samples + [x], cutoff);
      SuffixOfSuffix(Trim(e.samples + [x], cutoff), e.samples + [x], h.samples + [x]);
    }
  }

  lemma {:induction false} TrimIsSuffix(s: seq<Sample>, cutoff: real)
    requires |s| >= 2
    ensures IsSuffix(Trim(s, cutoff), s) && |Trim(s, cutoff)| >= 2
  {
    if |s| > 2 && s[0].t < cutoff {
      TrimIsSuffix(s[1..], cutoff);
    }
  }

  lemma {:induction false} KeptIsSuffix(frames: seq<Frame>)
    requires frames != []
    ensures KeepsSuffix(Run(frames), RunRecorded(frames))
  {
    var n := |frames| - 1;
    if n > 0 {
      KeptIsSuffix(frames[..n]);
      KeepsSuffixStep(Run(frames[..n]), RunRecorded(frames[..n]), frames[n]);
    } else {
      assert frames[..n] == [];
    }
  }

  /** The window reaches back no further than it did one frame earlier: it grew by no more than the time elapsed. */
  predicate CutoffAdvances(e: Estimator, earlier: Frame, f: Frame) {
    Continues(e, f.tsUs) ==> f.windowS <= earlier.windowS + ElapsedS(e.lastTsUs.value, f.tsUs)
  }

  ghost predicate CutoffsAdvance(frames: seq<Frame>) {
    forall k :: 0 < k < |frames| ==> CutoffAdvances(Run(frames[..k]), frames[k - 1], frames[k])
  }

  function Cutoff(e: Estimator, f: Frame): real {
    e.accumTimeS - f.windowS
  }

  lemma {:induction false} RetainableShift(h: seq<Sample>, d: nat, k: nat, cutoff: real)
    requires d + k <= |h|
    ensures Retainable(h[d..], k, cutoff) <==> Retainable(h, d + k, cutoff)
  {
  }

  /** A suffix that still holds whatever may be retained is trimmed to the longest. */
  lemma {:induction false} TrimOfSuffix(h: seq<Sample>, d: nat, cutoff: real)
    requires Spaced(h) && d + 2 <= |h| && (d > 0 ==> h[d - 1].t < cutoff)
    ensures IsLongestSuffix(Trim(h[d..], cutoff), h, cutoff)
  {
    var kept := Trim(h[d..], cutoff);
    TrimIsLongestSuffix(h[d..], cutoff);
    RetainableShift(h, d, |h[d..]| - |kept|, cutoff);
    forall k | 0 <= k < |h| - |kept|
      ensures !Retainable(h, k, cutoff)
    {
      if k >= d {
        RetainableShift(h, d, k - d, cutoff);
      } else if k < d - 1 {
        assert h[k].t <= h[d - 1].t;
      }
    }
  }

  /** One that has lost such a sample is not. */
  lemma {:induction false} TrimOfShortSuffix(h: seq<Sample>, d: nat, cutoff: real)
    requires 0 < d <= |h| - 2 && h[d - 1].t >= cutoff
    ensures !IsLongestSuffix(Trim(h[d..], cutoff), h, cutoff)
  {
    TrimIsSuffix(h[d..], cutoff);
    assert Retainable(h, d - 1, cutoff);
  }

  /** No sample that the new frame's window reaches back to was dropped. */
  predicate ReachesBackEnough(e: Estimator, h: Estimator, f: Frame) {
    Continues(e, f.tsUs) && |h.samples| > |e.samples| ==>
      h.samples[|h.samples| - |e.samples| - 1].t < Cutoff(Recorded(e, f), f)
  }

  lemma {:induction false} WindowStepExact(e: Estimator, h: Estimator, f: Frame)
    requires KeepsSuffix(e, h) && Orderly(h)
    ensures IsLongestSuffix(Updated(e, f).samples, Recorded(h, f).samples, Cutoff(Updated(e, f), f))
            <==> ReachesBackEnough(e, h, f)
  {
    if Continues(e, f.tsUs) {
      var g := Recorded(e, f);
      RecordedOrderly(h, f);
      UpdatedByParts(e, h, f);
      SampleStep(e.samples, h.samples, Sample(g.accumTimeS, g.accumPos), Cutoff(g, f));
    } else {
      BaselineIsLongest(Sample(0.0, 0.0), Cutoff(Baseline(f), f));
    }
  }

  /**
    Over every run, whatever the windows: after a further frame the deque is the
    longest suffix of the history that may be retained if and only if the frame
    resets the history, or nothing was dropped before it, or the youngest sample
    dropped before it is older than the new cutoff.
   */
  lemma {:induction false} WindowRunExact(frames: seq<Frame>, f: Frame)
    requires frames != []
    ensures Refined(frames + [f]) <==> ReachesBackEnough(Run(frames), RunRecorded(frames), f)
  {
    KeptIsSuffix(frames);
    HistoryIsOrderly(frames);
    WindowStepExact(Run(frames), RunRecorded(frames), f);
    assert (frames + [f])[..|frames|] == frames;
  }

  lemma {:induction false} SampleStep(s: seq<Sample>, h: seq<Sample>, x: Sample, cutoff: real)
    requires IsSuffix(s, h) && Spaced(h + [x])
    ensures var d := |h| - |s|;
            IsLongestSuffix(Trim(s + [x], cutoff), h + [x], cutoff) <==> (d > 0 ==> h[d - 1].t < cutoff)
  {
    var d := |h| - |s|;
    SuffixAppend(s, h, x);
    assert s + [x] == (h + [x])[d..];
    if d > 0 && h[d - 1].t >= cutoff {
      TrimOfShortSuffix(h + [x], d, cutoff);
    } else {
      TrimOfSuffix(h + [x], d, cutoff);
    }
  }

  lemma {:induction false} DroppedIsOld(s: seq<Sample>, h: seq<Sample>, cutoff: real)
    requires IsLongestSuffix(s, h, cutoff) && |h| > |s|
    ensures h[|h| - |s| - 1].t < cutoff
  {
    assert !Retainable(h, |h| - |s| - 1, cutoff);
  }

  /** A cutoff that moves forward reaches none of the dropped samples. */
  lemma {:induction false} AdvancedReaches(e: Estimator, h: Estimator, earlier: Frame, f: Frame)
    requires IsLongestSuffix(e.samples, h.samples, Cutoff(e, earlier)) && CutoffAdvances(e, earlier, f)
    ensures ReachesBackEnough(e, h, f)
  {
    if |h.samples| > |e.samples| {
      DroppedIsOld(e.samples, h.samples, Cutoff(e, earlier));
    }
  }

  lemma {:induction false} AdvancingStep(before: seq<Frame>, f: Frame)
    requires before != [] && Refined(before) && CutoffAdvances(Run(before), before[|before| - 1], f)
    ensures Refined(before + [f])
  {
    AdvancedReaches(Run(before), RunRecorded(before), before[|before| - 1], f);
    WindowRunExact(before, f);
  }

  /**
    Refinement over whole runs: as long as the cutoff never moves back, the deque
    is, after every frame that continues the history, exactly the longest suffix
    of all samples since the last reset that has at most two samples or starts at
    or after the cutoff.
   */
  lemma {:induction false} WindowRefinesHistory(frames: seq<Frame>)
    requires frames != [] && CutoffsAdvance(frames)
    ensures Refined(frames)
  {
    if |frames| > 1 {
      CutoffsAdvanceBefore(frames);
      WindowRefinesHistory(frames[..|frames| - 1]);
      RefinedNext(frames);
    } else {
      FirstIsRefined(frames);
    }
  }

  lemma {:induction false} RefinedNext(frames: seq<Frame>)
    requires |frames| > 1 && Refined(frames[..|frames| - 1])
    requires CutoffAdvances(Run(frames[..|frames| - 1]), frames[|frames| - 2], frames[|frames| - 1])
    ensures Refined(frames)
  {
    LastSplits(frames);
    AdvancingStep(frames[..|frames| - 1], frames[|frames| - 1]);
  }

  lemma {:induction false} LastSplits(frames: seq<Frame>)
    requires frames != []
    ensures frames == frames[..|frames| - 1] + [frames[|frames| - 1]]
  {
  }

  lemma {:induction false} FirstIsRefined(frames: seq<Frame>)
    requires |frames| == 1
    ensures Refined(frames)
  {
    assert frames[..|frames| - 1] == [];
    assert Run([]) == FRESH == RunRecorded([]);
    assert Run(frames) == Baseline(frames[0]) == RunRecorded(frames);
    BaselineIsLongest(Sample(0.0, 0.0), Cutoff(Baseline(frames[0]), frames[0]));
  }

  lemma {:induction false} CutoffsAdvanceBefore(frames: seq<Frame>)
    requires |frames| > 1 && CutoffsAdvance(frames)
    ensures CutoffsAdvance(frames[..|frames| - 1])
    ensures CutoffAdvances(Run(frames[..|frames| - 1]), frames[|frames| - 2], frames[|frames| - 1])
  {
    var before := frames[..|frames| - 1];
    forall k | 0 < k < |before|
      ensures CutoffAdvances(Run(before[..k]), before[k - 1], before[k])
    {
      assert before[..k] == frames[..k];
    }
  }

  ghost predicate Refined(frames: seq<Frame>)
    requires frames != []
  {
    var e := Run(frames);
    IsLongestSuffix(e.samples, RunRecorded(frames).samples, Cutoff(e, frames[|frames| - 1]))
  }

  lemma {:induction false} UpdatedByParts(e: Estimator, h: Estimator, f: Frame)
    requires e == h.(samples := e.samples) && Continues(e, f.tsUs)
    ensures var g := Recorded(e, f);
            var x := Sample(g.accumTimeS, g.accumPos);
            && Updated(e, f).samples == Trim(e.samples + [x], Cutoff(g, f))
            && Recorded(h, f).samples == h.samples + [x]
            && Cutoff(Updated(e, f), f) == Cutoff(g, f)
  {
  }

  lemma {:induction false} BaselineIsLongest(x: Sample, cutoff: real)
    ensures IsLongestSuffix([x], [x], cutoff)
  {
    assert [x] == [x][0..];
  }

  /** A fixed or shrinking window never moves the cutoff back. */
  lemma {:induction false} NonGrowingWindowSuffices(frames: seq<Frame>)
    requires frames != []
    requires forall k :: 0 < k < |frames| ==> frames[k].windowS <= frames[k - 1].windowS
    ensures Refined(frames)
  {
    WindowRefinesHistory(frames);
  }

  lemma {:induction false} RetainedAreSpaced(frames: seq<Frame>)
    requires frames != []
    ensures Spaced(Run(frames).samples)
  {
    KeptIsSuffix(frames);
    HistoryIsOrderly(frames);
    var s, h := Run(frames).samples, RunRecorded(frames).samples;
    assert forall i :: 0 <= i < |s| ==> s[i] == h[|h| - |s| + i];
  }

  /** A window that grows by more than the elapsed time finds its older samples already gone. */
  lemma {:induction false} GrowingWindowLosesHistory() returns (frames: seq<Frame>)
    ensures frames == [Frame(0, 0.0, 0.0005), Frame(1000, 0.0, 0.0005), Frame(2000, 0.0, 0.0005), Frame(3000, 0.0, 1.0)]
    ensures !Refined(frames)
  {
    var before := GrowingWindowStart();
    frames := before + [Frame(3000, 0.0, 1.0)];
    OldestIsMissed(before, Frame(3000, 0.0, 1.0));
  }

  lemma {:induction false} OldestIsMissed(frames: seq<Frame>, f: Frame)
    requires frames != [] && f == Frame(3000, 0.0, 1.0)
    requires var s0, s1, s2 := Sample(0.0, 0.0), Sample(0.001, 0.0), Sample(0.002, 0.0);
             Run(frames) == RestingAt(2000, 0.002, [s1, s2])
             && RunRecorded(frames) == RestingAt(2000, 0.002, [s0, s1, s2])
    ensures !Refined(frames + [f])
  {
    var s1, s2 := Sample(0.001, 0.0), Sample(0.002, 0.0);
    AtRest(2000, 0.002, [s1, s2], 3000, 0.003, [s1, s2] + [Sample(0.003, 0.0)], 1.0);
    WindowRunExact(frames, f);
  }

  lemma {:induction false} GrowingWindowStart() returns (frames: seq<Frame>)
    ensures frames == [Frame(0, 0.0, 0.0005), Frame(1000, 0.0, 0.0005), Frame(2000, 0.0, 0.0005)]
    ensures var s0, s1, s2 := Sample(0.0, 0.0), Sample(0.001, 0.0), Sample(0.002, 0.0);
            Run(frames) == RestingAt(2000, 0.002, [s1, s2])
            && RunRecorded(frames) == RestingAt(2000, 0.002, [s0, s1, s2])
  {
    var s0, s1, s2 := Sample(0.0, 0.0), Sample(0.001, 0.0), Sample(0.002, 0.0);
    FirstFrame();
    FirstTrim();
    frames := UnrollThree(Frame(0, 0.0, 0.0005), Frame(1000, 0.0, 0.0005), Frame(2000, 0.0, 0.0005),
                          RestingAt(1000, 0.001, [s0, s1]), RestingAt(2000, 0.002, [s1, s2]),
                          RestingAt(2000, 0.002, [s0, s1, s2]));
  }

  lemma {:induction false} FirstFrame()
    ensures var s0, s1 := Sample(0.0, 0.0), Sample(0.001, 0.0);
            Updated(Baseline(Frame(0, 0.0, 0.0005)), Frame(1000, 0.0, 0.0005))
            == Recorded(Baseline(Frame(0, 0.0, 0.0005)), Frame(1000, 0.0, 0.0005)) == RestingAt(1000, 0.001, [s0, s1])
  {
    var s0, s1 := Sample(0.0, 0.0), Sample(0.001, 0.0);
    assert [s0] + [s1] == [s0, s1];
    AtRest(0, 0.0, [s0], 1000, 0.001, [s0, s1], 0.0005);
  }

  lemma {:induction false} FirstTrim()
    ensures var s0, s1, s2 := Sample(0.0, 0.0), Sample(0.001, 0.0), Sample(0.002, 0.0);
            && Updated(RestingAt(1000, 0.001, [s0, s1]), Frame(2000, 0.0, 0.0005)) == RestingAt(2000, 0.002, [s1, s2])
            && Recorded(RestingAt(1000, 0.001, [s0, s1]), Frame(2000, 0.0, 0.0005))
               == RestingAt(2000, 0.002, [s0, s1, s2])
  {
    var s0, s1, s2 := Sample(0.0, 0.0), Sample(0.001, 0.0), Sample(0.002, 0.0);
    assert [s0, s1] + [s2] == [s0, s1, s2];
    assert [s0, s1, s2][1..] == [s1, s2];
    AtRest(1000, 0.001, [s0, s1], 2000, 0.002, [s0, s1, s2], 0.0005);
  }

  function RestingAt(tsUs: nat, t: real, s: seq<Sample>): Estimator {
    Estimator(Some(0.0), Some(tsUs), 0.0, t, s)
  }

  /** A motor at rest, one millisecond later. */
  lemma {:induction false} AtRest(tsUs: nat, t: real, s: seq<Sample>, tsUs': nat, t': real, s': seq<Sample>, w: real)
    requires tsUs' == tsUs + 1000 < 4000 && t' == t + 0.001 && s' == s + [Sample(t', 0.0)]
    ensures var e, f := RestingAt(tsUs, t, s), Frame(tsUs', 0.0, w);
            && Continues(e, tsUs') && Recorded(e, f) == RestingAt(tsUs', t', s')
            && Updated(e, f) == RestingAt(tsUs', t', Trim(s', t' - w))
  {
  }

  lemma {:induction false} UnrollThree(f0: Frame, f1: Frame, f2: Frame, e: Estimator, e2: Estimator, h2: Estimator)
    returns (frames: seq<Frame>)
    requires Updated(Baseline(f0), f1) == e == Recorded(Baseline(f0), f1)
    requires Updated(e, f2) == e2 && Recorded(e, f2) == h2
    ensures frames == [f0, f1, f2] && Run(frames) == e2 && RunRecorded(frames) == h2
  {
    frames := [f0, f1, f2];
    assert [f0][..0] == [];
    assert [f0, f1][..1] == [f0];
    assert frames[..2] == [f0, f1];
    assert Run([f0]) == Baseline(f0) && RunRecorded([f0]) == Baseline(f0);
    assert Run([f0, f1]) == e && RunRecorded([f0, f1]) == e;
  }
}
