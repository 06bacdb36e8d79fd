/**
  End-to-end meaning of the velocity filter: what it reports, stated against the
  true motion of the motor instead of the single-turn positions and wrapping
  timestamps it is fed.
 */
module VelocityTracking {
  import opened Wrappers
  import opened LeastSquares
  import opened Velocity

  /** True (multi-turn) position and true (unwrapped) device time behind one frame. */
  datatype Truth = Truth(x: real, us: nat, windowS: real)

  /** The single-turn reading of a position, in [-0.5, 0.5). */
  function SingleTurn(x: real): (r: real)
    ensures -0.5 <= r < 0.5
  {
    x - (x + 0.5).Floor as real
  }

  function Observed(w: Truth): Frame {
    Frame(w.us % 0x1_0000_0000, SingleTurn(w.x), w.windowS)
  }

  function ObservedAll(ws: seq<Truth>): (r: seq<Frame>)
    ensures |r| == |ws| && forall i :: 0 <= i < |ws| ==> r[i] == Observed(ws[i])
  {
    seq(|ws|, i requires 0 <= i < |ws| => Observed(ws[i]))
  }

  /** The filter starts over: repeated timestamp or a gap of more than half a second. */
  predicate StartsOver(a: Truth, b: Truth) {
    b.us == a.us || b.us > a.us + 500_000
  }

  /** Index of the frame the current history is measured from. */
  function LastReset(ws: seq<Truth>): (r: nat)
    requires ws != []
    ensures r < |ws|
  {
    var n := |ws| - 1;
    if n == 0 || StartsOver(ws[n - 1], ws[n]) then n else LastReset(ws[..n])
  }

  /** Device time never runs backwards and frames are less than one timestamp period apart. */
  predicate InOrder(a: Truth, b: Truth) {
    a.us <= b.us < a.us + 0x1_0000_0000
  }

  /** Motion stays under half a turn from frame to frame since the last reset; before it, anything goes. */
  ghost predicate SmoothRun(ws: seq<Truth>)
    requires ws != []
  {
    && (forall i :: 0 < i < |ws| ==> InOrder(ws[i - 1], ws[i]))
    && forall i :: LastReset(ws) < i < |ws| ==> -0.5 < ws[i].x - ws[i - 1].x < 0.5
  }

  /** The sample a perfect observer would store for `w` when counting from `origin`. */
  function TrueSample(w: Truth, origin: Truth): Sample {
    Sample((w.us - origin.us) as real * 0.000001, w.x - origin.x)
  }

  /**
    Unwrapping one frame is exact for less than half a turn of motion, and wrong
    for more than half a turn.
   */
  lemma {:induction false} UnwrapExact(x: real, y: real)
    ensures -0.5 < y - x < 0.5 ==> Unwrap(SingleTurn(y) - SingleTurn(x)) == y - x
    ensures y - x < -0.5 || 0.5 < y - x ==> Unwrap(SingleTurn(y) - SingleTurn(x)) != y - x
  {
    var k := (y + 0.5).Floor - (x + 0.5).Floor;
    assert SingleTurn(y) - SingleTurn(x) == y - x - k as real;
    if -0.5 < y - x < 0.5 {
      assert -2 < k < 2;
    }
  }

  /** The wrapping difference of two timestamps is the true elapsed time if and only if that is under one period. */
  lemma {:induction false} WrappingSubExact(a: nat, b: nat)
    requires a <= b
    ensures WrappingSub(b % 0x1_0000_0000, a % 0x1_0000_0000) == b - a <==> b - a < 0x1_0000_0000
  {
    var k := b / 0x1_0000_0000 - a / 0x1_0000_0000;
    assert b % 0x1_0000_0000 - a % 0x1_0000_0000 == b - a - 0x1_0000_0000 * k;
    WholePeriods(b - a, k);
  }

  lemma {:induction false} WholePeriods(x: int, k: int)
    ensures (x - 0x1_0000_0000 * k) % 0x1_0000_0000 == x % 0x1_0000_0000
  {
  }

  /** The estimator remembers the reading of its newest frame. */
  predicate Remembers(h: Estimator, w: Truth) {
    h.lastRawPos == Some(SingleTurn(w.x)) && h.lastTsUs == Some(w.us % 0x1_0000_0000)
  }

  ghost predicate Tracks(h: Estimator, ws: seq<Truth>)
    requires ws != []
  {
    var n, r := |ws| - 1, LastReset(ws);
    && Remembers(h, ws[n])
    && Sample(h.accumTimeS, h.accumPos) == TrueSample(ws[n], ws[r])
    && |h.samples| == n - r + 1
    && forall i :: 0 <= i < |h.samples| ==> h.samples[i] == TrueSample(ws[r + i], ws[r])
  }

  /** The filter starts over exactly on the frames that call for it, despite the wrapping timestamps. */
  lemma {:induction false} ContinuesExactly(h: Estimator, a: Truth, b: Truth)
    requires Remembers(h, a) && InOrder(a, b)
    ensures ElapsedS(h.lastTsUs.value, Observed(b).tsUs) == (b.us - a.us) as real * 0.000001
    ensures Continues(h, Observed(b).tsUs) <==> !StartsOver(a, b)
  {
    WrappingSubExact(a.us, b.us);
  }

  lemma {:induction false} TracksStep(h: Estimator, ws: seq<Truth>, w: Truth)
    requires ws != [] && Tracks(h, ws)
    requires InOrder(ws[|ws| - 1], w) && !StartsOver(ws[|ws| - 1], w) && -0.5 < w.x - ws[|ws| - 1].x < 0.5
    ensures Tracks(Recorded(h, Observed(w)), ws + [w])
  {
    var last, ws' := ws[|ws| - 1], ws + [w];
    assert ws'[..|ws|] == ws;
    UnwrapExact(last.x, w.x);
    ContinuesExactly(h, last, w);
  }

  lemma {:induction false} PrefixIsSmooth(ws: seq<Truth>)
    requires |ws| > 1 && SmoothRun(ws)
    ensures var n := |ws| - 1;
            !StartsOver(ws[n - 1], ws[n]) ==> SmoothRun(ws[..n]) && LastReset(ws[..n]) == LastReset(ws)
  {
  }

  /**
    The whole-history filter tracks the truth: since the last reset its
    accumulated position is the true displacement, its accumulated time the true
    elapsed time, and it holds one true sample per frame.
   */
  lemma {:induction false} HistoryTracksTruth(ws: seq<Truth>)
    requires ws != [] && SmoothRun(ws)
    ensures Tracks(RunRecorded(ObservedAll(ws)), ws)
  {
    if |ws| == 1 {
      FirstFrame(ws);
    } else {
      var n := |ws| - 1;
      var h := RunRecorded(ObservedAll(ws[..n]));
      if !StartsOver(ws[n - 1], ws[n]) {
        PrefixIsSmooth(ws);
        HistoryTracksTruth(ws[..n]);
      }
      RemembersBeforeLast(ws);
      TracksNext(h, ws);
      LastRecorded(ws);
    }
  }

  lemma {:induction false} FirstFrame(ws: seq<Truth>)
    requires |ws| == 1
    ensures Tracks(RunRecorded(ObservedAll(ws)), ws)
  {
    assert ObservedAll(ws)[..0] == [];
  }

  lemma {:induction false} LastRecorded(ws: seq<Truth>)
    requires ws != []
    ensures var n := |ws| - 1;
            && RunRecorded(ObservedAll(ws)) == Recorded(RunRecorded(ObservedAll(ws[..n])), Observed(ws[n]))
            && Run(ObservedAll(ws)) == Updated(Run(ObservedAll(ws[..n])), Observed(ws[n]))
  {
    assert ObservedAll(ws)[..|ws| - 1] == ObservedAll(ws[..|ws| - 1]);
  }

  lemma {:induction false} TracksNext(h: Estimator, ws: seq<Truth>)
    requires |ws| > 1 && SmoothRun(ws) && Remembers(h, ws[|ws| - 2])
    requires StartsOver(ws[|ws| - 2], ws[|ws| - 1]) || Tracks(h, ws[..|ws| - 1])
    ensures Tracks(Recorded(h, Observed(ws[|ws| - 1])), ws)
  {
    var n := |ws| - 1;
    assert ws == ws[..n] + [ws[n]];
    ContinuesExactly(h, ws[n - 1], ws[n]);
    if !StartsOver(ws[n - 1], ws[n]) {
      PrefixIsSmooth(ws);
      TracksStep(h, ws[..n], ws[n]);
    }
  }

  lemma {:induction false} RemembersLast(ws: seq<Truth>)
    requires ws != []
    ensures Remembers(RunRecorded(ObservedAll(ws)), ws[|ws| - 1])
  {
  }

  lemma {:induction false} RemembersBeforeLast(ws: seq<Truth>)
    requires |ws| > 1
    ensures Remembers(RunRecorded(ObservedAll(ws[..|ws| - 1])), ws[|ws| - 2])
  {
    RemembersLast(ws[..|ws| - 1]);
  }

  /** How many frames the deque holds, counted back from the newest. */
  function Retained(ws: seq<Truth>): nat {
    |Run(ObservedAll(ws)).samples|
  }

  /**
    The accumulated position is the true displacement since the last reset, and
    the deque holds the true samples of the newest frames since then.
   */
  ghost predicate HoldsTruth(e: Estimator, ws: seq<Truth>)
    requires ws != []
  {
    var n, r, m := |ws|, LastReset(ws), |e.samples|;
    && e.accumPos == ws[n - 1].x - ws[r].x
    && 0 < m <= n - r
    && forall i :: 0 <= i < m ==> e.samples[i] == TrueSample(ws[n - m + i], ws[r])
  }

  /**
    The filter itself: accumulated position equals true displacement since the
    last reset, and the deque holds the true samples of the newest frames.
   */
  lemma {:induction false} FilterTracksTruth(ws: seq<Truth>)
    requires ws != [] && SmoothRun(ws)
    ensures HoldsTruth(Run(ObservedAll(ws)), ws)
  {
    HistoryTracksTruth(ws);
    KeptIsSuffix(ObservedAll(ws));
    KeptTracks(Run(ObservedAll(ws)), RunRecorded(ObservedAll(ws)), ws);
  }

  lemma {:induction false} KeptTracks(e: Estimator, h: Estimator, ws: seq<Truth>)
    requires ws != [] && Tracks(h, ws) && KeepsSuffix(e, h)
    ensures HoldsTruth(e, ws)
  {
    var n, r, m := |ws|, LastReset(ws), |e.samples|;
    forall i | 0 <= i < m
      ensures e.samples[i] == TrueSample(ws[n - m + i], ws[r])
    {
      KeptSample(e, h, ws, i);
    }
  }

  lemma {:induction false} KeptSample(e: Estimator, h: Estimator, ws: seq<Truth>, i: nat)
    requires ws != [] && Tracks(h, ws) && KeepsSuffix(e, h) && i < |e.samples|
    ensures |e.samples| <= |ws| - LastReset(ws)
    ensures e.samples[i] == TrueSample(ws[|ws| - |e.samples| + i], ws[LastReset(ws)])
  {
    var j := |h.samples| - |e.samples| + i;
    assert e.samples[i] == h.samples[j];
    assert h.samples[j] == TrueSample(ws[LastReset(ws) + j], ws[LastReset(ws)]);
  }

  lemma {:induction false} RetainsTwo(ws: seq<Truth>)
    requires ws != [] && SmoothRun(ws) && LastReset(ws) < |ws| - 1
    ensures Retained(ws) >= 2
  {
    var n := |ws| - 1;
    var e, h := Run(ObservedAll(ws[..n])), RunRecorded(ObservedAll(ws[..n]));
    RemembersLast(ws[..n]);
    KeptIsSuffix(ObservedAll(ws[..n]));
    LastRecorded(ws);
    KeepsTwo(e, h, ws[n - 1], ws[n]);
  }

  lemma {:induction false} KeepsTwo(e: Estimator, h: Estimator, a: Truth, b: Truth)
    requires KeepsSuffix(e, h) && Remembers(h, a) && InOrder(a, b) && !StartsOver(a, b)
    ensures |Updated(e, Observed(b)).samples| >= 2
  {
    ContinuesExactly(e, a, b);
    KeepsSuffixStep(e, h, Observed(b));
  }

  /** Between these two frames the true speed was at least lo and at most hi. */
  predicate SpeedBetween(a: Truth, b: Truth, lo: real, hi: real) {
    Between(lo, hi, (b.us - a.us) as real * 0.000001, b.x - a.x)
  }

  lemma {:induction false} SlopeOfPairs(s: seq<Sample>, lo: real, hi: real)
    requires |s| >= 2 && Spaced(s)
    requires SpeedWithin(Times(s), Positions(s), lo, hi)
    ensures Slope(s).Some? && lo <= Slope(s).value <= hi
  {
    var ts, ps := Times(s), Positions(s);
    SpreadIsPairs(ts, ts);
    SpreadIsPairs(ts, ps);
    PairsWithin(ts, ps, lo, hi);
    PairsPositive(ts, MICROSECOND);
    Quotient(lo, hi, Denominator(s), Numerator(s));
  }

  lemma {:induction false} Quotient(lo: real, hi: real, d: real, n: real)
    requires d > 0.0 && Between(lo, hi, d, n)
    ensures lo <= n / d <= hi
  {
    DividesAbove(lo, d, n);
    DividesAbove(-hi, d, -n);
    assert -n / d == -(n / d);
  }

  lemma {:induction false} DividesAbove(lo: real, d: real, n: real)
    requires d > 0.0 && lo * d <= n
    ensures lo <= n / d
  {
    var gap := n / d - lo;
    assert gap * d == n - lo * d;
  }

  /**
    End to end: on every frame that is not a reset the filter returns a speed,
    and it lies between the smallest and the largest true inter-frame speed in
    the retained window.
   */
  lemma {:induction false} SlopeWithinTrueSpeeds(ws: seq<Truth>, lo: real, hi: real)
    requires ws != [] && SmoothRun(ws) && LastReset(ws) < |ws| - 1
    requires forall k :: 0 < k < |ws| && |ws| - Retained(ws) < k ==> SpeedBetween(ws[k - 1], ws[k], lo, hi)
    ensures var v := Slope(Run(ObservedAll(ws)).samples);
            v.Some? && lo <= v.value <= hi
  {
    FilterTracksTruth(ws);
    RetainsTwo(ws);
    RetainedAreSpaced(ObservedAll(ws));
    SlopeOfHeld(Run(ObservedAll(ws)), ws, lo, hi);
  }

  lemma {:induction false} SlopeOfHeld(e: Estimator, ws: seq<Truth>, lo: real, hi: real)
    requires ws != [] && HoldsTruth(e, ws) && Spaced(e.samples) && |e.samples| >= 2
    requires forall k :: 0 < k < |ws| && |ws| - |e.samples| < k ==> SpeedBetween(ws[k - 1], ws[k], lo, hi)
    ensures Slope(e.samples).Some? && lo <= Slope(e.samples).value <= hi
  {
    WindowSpeed(e.samples, ws, ws[LastReset(ws)], lo, hi);
    SlopeOfPairs(e.samples, lo, hi);
  }

  lemma {:induction false} WindowSpeed(s: seq<Sample>, ws: seq<Truth>, origin: Truth, lo: real, hi: real)
    requires |s| <= |ws| && Spaced(s)
    requires forall i :: 0 <= i < |s| ==> s[i] == TrueSample(ws[|ws| - |s| + i], origin)
    requires forall k :: 0 < k < |ws| && |ws| - |s| < k ==> SpeedBetween(ws[k - 1], ws[k], lo, hi)
    ensures SpeedWithin(Times(s), Positions(s), lo, hi)
  {
    var ts, ps, first := Times(s), Positions(s), |ws| - |s|;
    forall k | 0 < k < |ts|
      ensures ts[k - 1] < ts[k] && Between(lo, hi, ts[k] - ts[k - 1], ps[k] - ps[k - 1])
    {
      assert s[k].t - s[k - 1].t >= MICROSECOND;
      assert s[k - 1] == TrueSample(ws[first + k - 1], origin);
      TrueDifference(ws[first + k - 1], ws[first + k], origin, lo, hi);
    }
    StepsBoundSpeed(ts, ps, lo, hi);
  }

  lemma {:induction false} TrueDifference(a: Truth, b: Truth, origin: Truth, lo: real, hi: real)
    requires SpeedBetween(a, b, lo, hi)
    ensures var s, t := TrueSample(a, origin), TrueSample(b, origin);
            Between(lo, hi, t.t - s.t, t.p - s.p)
  {
    var s, t := TrueSample(a, origin), TrueSample(b, origin);
    assert t.t - s.t == (b.us - a.us) as real * 0.000001;
    assert t.p - s.p == b.x - a.x;
  }

  /** In particular a constant true speed is returned exactly. */
  lemma {:induction false} ConstantSpeedIsExact(ws: seq<Truth>, v: real)
    requires ws != [] && SmoothRun(ws) && LastReset(ws) < |ws| - 1
    requires forall k :: LastReset(ws) < k < |ws|
               ==> ws[k].x - ws[k - 1].x == Mul(v, (ws[k].us - ws[k - 1].us) as real * 0.000001)
    ensures Slope(Run(ObservedAll(ws)).samples) == Some(v)
  {
    FilterTracksTruth(ws);
    SlopeWithinTrueSpeeds(ws, v, v);
  }

  /**
    For any motion under half a turn per frame: on every frame that is not a reset
    the filter returns the slope of the line nearest to the true samples of the
    retained window, and no other number is the slope of a nearest line.
   */
  lemma {:induction false} SlopeFitsTruth(ws: seq<Truth>, v: real)
    requires ws != [] && SmoothRun(ws) && LastReset(ws) < |ws| - 1
    ensures var e := Run(ObservedAll(ws));
            HoldsTruth(e, ws) && (BestFit(Times(e.samples), Positions(e.samples), v) <==> Slope(e.samples) == Some(v))
  {
    FilterTracksTruth(ws);
    RetainsTwo(ws);
    RetainedAreSpaced(ObservedAll(ws));
    SlopeIsBestFit(Run(ObservedAll(ws)).samples, v);
  }

  /** A frame the window still covers: one of the newest two, or not older than the window. */
  predicate Covered(ws: seq<Truth>, k: nat)
    requires k < |ws|
  {
    var last := ws[|ws| - 1];
    k + 2 >= |ws| || (last.us - ws[k].us) as real * 0.000001 <= last.windowS
  }

  /** The deque e holds the newest frames since the last reset that the window covers. */
  ghost predicate HoldsWindow(e: Estimator, ws: seq<Truth>)
    requires ws != []
  {
    && LastReset(ws) <= |ws| - |e.samples| < |ws| && Covered(ws, |ws| - |e.samples|)
    && forall k :: LastReset(ws) <= k < |ws| - |e.samples| ==> !Covered(ws, k)
  }

  ghost predicate NotEnlarged(ws: seq<Truth>) {
    forall k :: 0 < k < |ws| ==> ws[k].windowS <= ws[k - 1].windowS
  }

  lemma {:induction false} TimeSince(x: int, origin: int, last: int)
    ensures (last - origin) as real * 0.000001 - (x - origin) as real * 0.000001 == (last - x) as real * 0.000001
  {
  }

  lemma {:induction false} RetainableIsCovered(e: Estimator, h: Estimator, ws: seq<Truth>, i: nat)
    requires ws != [] && Tracks(h, ws) && e == h.(samples := e.samples) && i < |h.samples|
    ensures Retainable(h.samples, i, Cutoff(e, Observed(ws[|ws| - 1]))) <==> Covered(ws, LastReset(ws) + i)
  {
    var r, last := LastReset(ws), ws[|ws| - 1];
    assert h.samples[i] == TrueSample(ws[r + i], ws[r]);
    TimeSince(ws[r + i].us, ws[r].us, last.us);
  }

  lemma {:induction false} WindowOfSuffix(e: Estimator, h: Estimator, ws: seq<Truth>)
    requires ws != [] && Tracks(h, ws) && KeepsSuffix(e, h)
    requires IsLongestSuffix(e.samples, h.samples, Cutoff(e, Observed(ws[|ws| - 1])))
    ensures HoldsWindow(e, ws)
  {
    var r, d := LastReset(ws), |h.samples| - |e.samples|;
    RetainableIsCovered(e, h, ws, d);
    forall k | r <= k < |ws| - |e.samples|
      ensures !Covered(ws, k)
    {
      assert !Retainable(h.samples, k - r, Cutoff(e, Observed(ws[|ws| - 1])));
      RetainableIsCovered(e, h, ws, k - r);
    }
  }

  lemma {:induction false} ObservedIsRefined(ws: seq<Truth>)
    requires ws != [] && NotEnlarged(ws)
    ensures IsLongestSuffix(Run(ObservedAll(ws)).samples, RunRecorded(ObservedAll(ws)).samples,
                            Cutoff(Run(ObservedAll(ws)), Observed(ws[|ws| - 1])))
  {
    var frames := ObservedAll(ws);
    forall k | 0 < k < |frames|
      ensures frames[k].windowS <= frames[k - 1].windowS
    {
      assert ws[k].windowS <= ws[k - 1].windowS;
    }
    NonGrowingWindowSuffices(frames);
  }

  /**
    As long as the window is not enlarged, the deque holds exactly the newest frames
    since the last reset up to the oldest one that the window covers.
   */
  lemma {:induction false} WindowHoldsNewest(ws: seq<Truth>)
    requires ws != [] && SmoothRun(ws) && NotEnlarged(ws)
    ensures HoldsTruth(Run(ObservedAll(ws)), ws) && HoldsWindow(Run(ObservedAll(ws)), ws)
  {
    FilterTracksTruth(ws);
    HistoryTracksTruth(ws);
    KeptIsSuffix(ObservedAll(ws));
    ObservedIsRefined(ws);
    WindowOfSuffix(Run(ObservedAll(ws)), RunRecorded(ObservedAll(ws)), ws);
  }

  function Moved(s: seq<Sample>, dt: real, dp: real): (r: seq<Sample>)
    ensures |r| == |s|
  {
    seq(|s|, i requires 0 <= i < |s| => Sample(s[i].t + dt, s[i].p + dp))
  }

  /** The slope does not depend on where time and position are measured from. */
  lemma {:induction false} SlopeShiftInvariant(s: seq<Sample>, dt: real, dp: real)
    ensures Slope(Moved(s, dt, dp)) == Slope(s)
  {
    var ts, ps := Times(s), Positions(s);
    assert Times(Moved(s, dt, dp)) == Shifted(ts, dt);
    assert Positions(Moved(s, dt, dp)) == Shifted(ps, dp);
    SpreadIsPairs(ts, ts);
    SpreadIsPairs(ts, ps);
    SpreadIsPairs(Shifted(ts, dt), Shifted(ts, dt));
    SpreadIsPairs(Shifted(ts, dt), Shifted(ps, dp));
    PairsShift(ts, ts, dt, dt);
    PairsShift(ts, ps, dt, dp);
  }
}
