/**
  Exact arithmetic behind the least-squares slope of the velocity filter: the
  running sums of the filter equal sums over pairs of samples (Lagrange's
  identity), and pairwise bounds carry over to the slope (Chebyshev's sum
  inequality, for an arbitrary spacing of the samples).
 */
module LeastSquares {

  function Sum(a: seq<real>): real {
    if a == [] then 0.0 else Sum(a[..|a| - 1]) + a[|a| - 1]
  }

  function Mul(x: real, y: real): real {
    x * y
  }

  function Dot(a: seq<real>, b: seq<real>): real
    requires |a| == |b|
  {
    if a == [] then 0.0 else Dot(a[..|a| - 1], b[..|a| - 1]) + Mul(a[|a| - 1], b[|a| - 1])
  }

  /** The filter's numerator, and with a == b its denominator: n * sum(a b) - sum(a) sum(b). */
  function Spread(n: real, dot: real, sumA: real, sumB: real): real {
    n * dot - sumA * sumB
  }

  function SpreadOf(a: seq<real>, b: seq<real>): real
    requires |a| == |b|
  {
    Spread(|a| as real, Dot(a, b), Sum(a), Sum(b))
  }

  /** Sum over all i of (x - a[i]) * (y - b[i]). */
  function Cross(a: seq<real>, b: seq<real>, x: real, y: real): real
    requires |a| == |b|
  {
    if a == [] then 0.0
    else Cross(a[..|a| - 1], b[..|a| - 1], x, y) + Mul(x - a[|a| - 1], y - b[|a| - 1])
  }

  /** Sum over all i < j of (a[j] - a[i]) * (b[j] - b[i]). */
  function Pairs(a: seq<real>, b: seq<real>): real
    requires |a| == |b|
  {
    if a == [] then 0.0
    else Pairs(a[..|a| - 1], b[..|a| - 1]) + Cross(a[..|a| - 1], b[..|a| - 1], a[|a| - 1], b[|a| - 1])
  }

  /** Cross written with the running sums. */
  function CrossFromSums(n: real, dot: real, sumA: real, sumB: real, x: real, y: real): real {
    n * (x * y) - x * sumB - y * sumA + dot
  }

  lemma {:induction false} CrossExpands(a: seq<real>, b: seq<real>, x: real, y: real)
    requires |a| == |b|
    ensures Cross(a, b, x, y) == CrossFromSums(|a| as real, Dot(a, b), Sum(a), Sum(b), x, y)
  {
    if a != [] {
      var n := |a| - 1;
      var a', b' := a[..n], b[..n];
      CrossExpands(a', b', x, y);
      CrossStep(|a'| as real, Dot(a', b'), Sum(a'), Sum(b'), x, y, a[n], b[n]);
    }
  }

  lemma {:induction false} CrossStep(n: real, d: real, s: real, t: real, x: real, y: real, p: real, q: real)
    ensures CrossFromSums(n + 1.0, d + Mul(p, q), s + p, t + q, x, y)
            == CrossFromSums(n, d, s, t, x, y) + Mul(x - p, y - q)
  {
    assert (x - p) * (y - q) == x * y - x * q - y * p + p * q;
  }

  /** Lagrange's identity: the filter's running sums are a sum over pairs of samples. */
  lemma {:induction false} SpreadIsPairs(a: seq<real>, b: seq<real>)
    requires |a| == |b|
    ensures SpreadOf(a, b) == Pairs(a, b)
  {
    if a != [] {
      var n := |a| - 1;
      var a', b' := a[..n], b[..n];
      SpreadIsPairs(a', b');
      CrossExpands(a', b', a[n], b[n]);
      SpreadStep(|a'| as real, Dot(a', b'), Sum(a'), Sum(b'), a[n], b[n]);
    }
  }

  lemma {:induction false} SpreadStep(n: real, d: real, s: real, t: real, x: real, y: real)
    ensures Spread(n + 1.0, d + Mul(x, y), s + x, t + y)
            == Spread(n, d, s, t) + CrossFromSums(n, d, s, t, x, y)
  {
    assert (s + x) * (t + y) == s * t + s * y + x * t + x * y;
  }

  /** u lies between lo and hi times x. */
  predicate Between(lo: real, hi: real, x: real, u: real) {
    Mul(lo, x) <= u <= Mul(hi, x)
  }

  /** Every increment of b between two indices lies between lo and hi times that of a. */
  ghost predicate SpeedWithin(a: seq<real>, b: seq<real>, lo: real, hi: real)
    requires |a| == |b|
  {
    forall i, j :: 0 <= i < j < |a| ==> a[i] < a[j] && Between(lo, hi, a[j] - a[i], b[j] - b[i])
  }

  lemma {:induction false} MulMonotone(g: real, x: real, y: real)
    requires g > 0.0 && x <= y
    ensures Mul(g, x) <= Mul(g, y)
  {
    var d := y - x;
    assert g * d >= 0.0;
    assert g * y == g * x + g * d;
  }

  lemma {:induction false} MulAssociates(g: real, c: real)
    ensures Mul(g, Mul(c, g)) == Mul(c, Mul(g, g))
  {
  }

  lemma {:induction false} ScaleByGap(lo: real, hi: real, g: real, d: real)
    requires g > 0.0 && Between(lo, hi, g, d)
    ensures Between(lo, hi, Mul(g, g), Mul(g, d))
  {
    MulMonotone(g, Mul(lo, g), d);
    MulMonotone(g, d, Mul(hi, g));
    MulAssociates(g, lo);
    MulAssociates(g, hi);
    MulMonotone(g, 0.0, g);
  }

  lemma {:induction false} AddBounds(lo: real, hi: real, x: real, u: real, y: real, v: real)
    requires Between(lo, hi, x, u) && Between(lo, hi, y, v)
    ensures Between(lo, hi, x + y, u + v)
  {
  }

  lemma {:induction false} CrossWithin(a: seq<real>, b: seq<real>, x: real, y: real, lo: real, hi: real)
    requires |a| == |b|
    requires forall i :: 0 <= i < |a| ==> a[i] < x && Between(lo, hi, x - a[i], y - b[i])
    ensures Between(lo, hi, Cross(a, a, x, x), Cross(a, b, x, y))
    ensures Cross(a, a, x, x) >= 0.0
    ensures a != [] ==> Cross(a, a, x, x) >= Mul(x - a[|a| - 1], x - a[|a| - 1])
  {
    if a != [] {
      var n := |a| - 1;
      CrossWithin(a[..n], b[..n], x, y, lo, hi);
      ScaleByGap(lo, hi, x - a[n], y - b[n]);
      AddBounds(lo, hi, Cross(a[..n], a[..n], x, x), Cross(a[..n], b[..n], x, y),
                Mul(x - a[n], x - a[n]), Mul(x - a[n], y - b[n]));
    }
  }

  /** Chebyshev's sum inequality: pairwise speed bounds bound the sums over pairs. */
  lemma {:induction false} PairsWithin(a: seq<real>, b: seq<real>, lo: real, hi: real)
    requires |a| == |b| && SpeedWithin(a, b, lo, hi)
    ensures Between(lo, hi, Pairs(a, a), Pairs(a, b))
  {
    if a != [] {
      var a', b' := a[..|a| - 1], b[..|a| - 1];
      var x, y := a[|a| - 1], b[|a| - 1];
      PairsWithin(a', b', lo, hi);
      CrossWithin(a', b', x, y, lo, hi);
      AddBounds(lo, hi, Pairs(a', a'), Pairs(a', b'), Cross(a', a', x, x), Cross(a', b', x, y));
    }
  }

  /** The same bounds, required of neighbouring indices only. */
  ghost predicate StepsWithin(a: seq<real>, b: seq<real>, lo: real, hi: real)
    requires |a| == |b|
  {
    forall k :: 0 < k < |a| ==> a[k - 1] < a[k] && Between(lo, hi, a[k] - a[k - 1], b[k] - b[k - 1])
  }

  /** Bounds from step to step bound the increments between any two indices. */
  lemma {:induction false} Telescope(a: seq<real>, b: seq<real>, i: nat, j: nat, lo: real, hi: real)
    requires |a| == |b| && StepsWithin(a, b, lo, hi) && i < j < |a|
    ensures a[i] < a[j] && Between(lo, hi, a[j] - a[i], b[j] - b[i])
    decreases j
  {
    if i + 1 < j {
      Telescope(a, b, i, j - 1, lo, hi);
      AddBounds(lo, hi, a[j - 1] - a[i], b[j - 1] - b[i], a[j] - a[j - 1], b[j] - b[j - 1]);
    }
  }

  lemma {:induction false} StepsBoundSpeed(a: seq<real>, b: seq<real>, lo: real, hi: real)
    requires |a| == |b| && StepsWithin(a, b, lo, hi)
    ensures SpeedWithin(a, b, lo, hi)
  {
    forall i, j | 0 <= i < j < |a|
      ensures a[i] < a[j] && Between(lo, hi, a[j] - a[i], b[j] - b[i])
    {
      Telescope(a, b, i, j, lo, hi);
    }
  }

  ghost predicate SpacedBy(a: seq<real>, gap: real) {
    forall i, j :: 0 <= i < j < |a| ==> a[j] - a[i] >= gap
  }

  /** Samples at least `gap` apart keep the denominator away from zero. */
  lemma {:induction false} PairsPositive(a: seq<real>, gap: real)
    requires gap > 0.0 && SpacedBy(a, gap)
    ensures Pairs(a, a) >= 0.0
    ensures |a| >= 2 ==> Pairs(a, a) >= Mul(gap, gap)
  {
    if a != [] {
      var n := |a| - 1;
      PairsPositive(a[..n], gap);
      CrossWithin(a[..n], a[..n], a[n], a[n], 1.0, 1.0);
      if n > 0 {
        SquareMonotone(gap, a[n] - a[..n][n - 1]);
      }
    }
  }

  lemma {:induction false} SquareMonotone(g: real, h: real)
    requires 0.0 < g <= h
    ensures Mul(g, g) <= Mul(h, h)
  {
    MulMonotone(g, g, h);
    MulMonotone(h, g, h);
    assert Mul(g, h) == Mul(h, g);
  }

  function Shifted(a: seq<real>, c: real): (r: seq<real>)
    ensures |r| == |a| && forall i :: 0 <= i < |a| ==> r[i] == a[i] + c
  {
    seq(|a|, i requires 0 <= i < |a| => a[i] + c)
  }

  lemma {:induction false} CrossShift(a: seq<real>, b: seq<real>, x: real, y: real, c: real, d: real)
    requires |a| == |b|
    ensures Cross(Shifted(a, c), Shifted(b, d), x + c, y + d) == Cross(a, b, x, y)
  {
    if a != [] {
      var n := |a| - 1;
      assert Shifted(a, c)[..n] == Shifted(a[..n], c);
      assert Shifted(b, d)[..n] == Shifted(b[..n], d);
      CrossShift(a[..n], b[..n], x, y, c, d);
    }
  }

  /** Sums over pairs do not see a common offset of either coordinate. */
  lemma {:induction false} PairsShift(a: seq<real>, b: seq<real>, c: real, d: real)
    requires |a| == |b|
    ensures Pairs(Shifted(a, c), Shifted(b, d)) == Pairs(a, b)
  {
    if a != [] {
      var n := |a| - 1;
      assert Shifted(a, c)[..n] == Shifted(a[..n], c);
      assert Shifted(b, d)[..n] == Shifted(b[..n], d);
      PairsShift(a[..n], b[..n], c, d);
      CrossShift(a[..n], b[..n], a[n], b[n], c, d);
    }
  }

  // ---------------------------------------------------------------------
  // Least squares
  // ---------------------------------------------------------------------

  function Square(x: real): real {
    x * x
  }

  /** How far the point (x, y) is above the line with slope v and intercept c. */
  function Above(x: real, y: real, v: real, c: real): real {
    y - Mul(v, x) - c
  }

  /** How far the points (a[i], b[i]) are from that line: sum of squared residuals. */
  function SquaredError(a: seq<real>, b: seq<real>, v: real, c: real): real
    requires |a| == |b|
  {
    if a == [] then 0.0
    else SquaredError(a[..|a| - 1], b[..|a| - 1], v, c) + Square(Above(a[|a| - 1], b[|a| - 1], v, c))
  }

  /** The line is at least as near to the points as every line. */
  ghost predicate NearestLine(a: seq<real>, b: seq<real>, v: real, c: real)
    requires |a| == |b|
  {
    forall w, d :: SquaredError(a, b, v, c) <= SquaredError(a, b, w, d)
  }

  /** Some line with slope v is nearest. */
  ghost predicate BestFit(a: seq<real>, b: seq<real>, v: real)
    requires |a| == |b|
  {
    exists c :: NearestLine(a, b, v, c)
  }

  /** Sum of the residuals, and of the residuals weighted with a. */
  function Residual(a: seq<real>, b: seq<real>, v: real, c: real): real
    requires |a| == |b|
  {
    if a == [] then 0.0
    else Residual(a[..|a| - 1], b[..|a| - 1], v, c) + Above(a[|a| - 1], b[|a| - 1], v, c)
  }

  function Moment(a: seq<real>, b: seq<real>, v: real, c: real): real
    requires |a| == |b|
  {
    if a == [] then 0.0
    else Moment(a[..|a| - 1], b[..|a| - 1], v, c) + Mul(a[|a| - 1], Above(a[|a| - 1], b[|a| - 1], v, c))
  }

  /** How far apart two lines are at x that differ by e in slope and f in intercept. */
  function Gap(x: real, e: real, f: real): real {
    Mul(e, x) + f
  }

  /** Sum of the squared gaps. */
  function Apart(a: seq<real>, e: real, f: real): real {
    if a == [] then 0.0 else Apart(a[..|a| - 1], e, f) + Square(Gap(a[|a| - 1], e, f))
  }

  function Pull(e: real, f: real, moment: real, residual: real): real {
    Mul(e, moment) + Mul(f, residual)
  }

  lemma {:induction false} TermMoves(x: real, y: real, v: real, c: real, e: real, f: real)
    ensures var r := Above(x, y, v, c);
            Square(Above(x, y, v + e, c + f)) == Square(r) - 2.0 * Pull(e, f, Mul(x, r), r) + Square(Gap(x, e, f))
  {
    var r, g := Above(x, y, v, c), Gap(x, e, f);
    assert Above(x, y, v + e, c + f) == r - g;
    SquareOfDifference(r, g);
    GapPulls(x, e, f, r);
  }

  lemma {:induction false} SquareOfDifference(r: real, g: real)
    ensures Square(r - g) == Square(r) - 2.0 * Mul(r, g) + Square(g)
  {
  }

  lemma {:induction false} GapPulls(x: real, e: real, f: real, r: real)
    ensures Mul(r, Gap(x, e, f)) == Pull(e, f, Mul(x, r), r)
  {
    assert r * (e * x + f) == e * (x * r) + f * r;
  }

  lemma {:induction false} PullsAdd(e: real, f: real, m: real, r: real, m': real, r': real)
    ensures Pull(e, f, m + m', r + r') == Pull(e, f, m, r) + Pull(e, f, m', r')
  {
  }

  /** The error of any other line, from the balance of the residuals and the distance of the lines. */
  lemma {:induction false} ErrorMoves(a: seq<real>, b: seq<real>, v: real, c: real, e: real, f: real)
    requires |a| == |b|
    ensures SquaredError(a, b, v + e, c + f)
            == SquaredError(a, b, v, c) - 2.0 * Pull(e, f, Moment(a, b, v, c), Residual(a, b, v, c)) + Apart(a, e, f)
  {
    if a != [] {
      var n := |a| - 1;
      var r := Above(a[n], b[n], v, c);
      ErrorMoves(a[..n], b[..n], v, c, e, f);
      TermMoves(a[n], b[n], v, c, e, f);
      PullsAdd(e, f, Moment(a[..n], b[..n], v, c), Residual(a[..n], b[..n], v, c), Mul(a[n], r), r);
    }
  }

  lemma {:induction false} ApartIsPositive(a: seq<real>, e: real, f: real)
    ensures Apart(a, e, f) >= 0.0
  {
    if a != [] {
      ApartIsPositive(a[..|a| - 1], e, f);
      SquareIsPositive(Gap(a[|a| - 1], e, f));
    }
  }

  lemma {:induction false} SquareIsPositive(x: real)
    ensures Square(x) >= 0.0 && (Square(x) <= 0.0 ==> x == 0.0)
  {
    var y := if x >= 0.0 then x else -x;
    SquareOfMagnitude(x, y);
    if y > 0.0 {
      PositiveProduct(y, y);
    } else {
      SquareOfMagnitude(x, 0.0);
      assert Mul(0.0, 0.0) == 0.0;
    }
  }

  lemma {:induction false} SquareOfMagnitude(x: real, y: real)
    requires x == y || x == -y
    ensures Square(x) == Mul(y, y)
  {
  }

  lemma {:induction false} PositiveProduct(x: real, y: real)
    requires x > 0.0 && y > 0.0
    ensures Mul(x, y) > 0.0
  {
  }

  /** A line whose residuals balance is nearest. */
  lemma {:induction false} BalancedIsNearest(a: seq<real>, b: seq<real>, v: real, c: real)
    requires |a| == |b| && Moment(a, b, v, c) == 0.0 && Residual(a, b, v, c) == 0.0
    ensures NearestLine(a, b, v, c)
  {
    forall w, d
      ensures SquaredError(a, b, v, c) <= SquaredError(a, b, w, d)
    {
      ErrorMoves(a, b, v, c, w - v, d - c);
      ApartIsPositive(a, w - v, d - c);
    }
  }

  /** The balances from the running sums. */
  lemma {:induction false} BalanceFromSums(a: seq<real>, b: seq<real>, v: real, c: real)
    requires |a| == |b|
    ensures Residual(a, b, v, c) == Sum(b) - Mul(v, Sum(a)) - Mul(c, |a| as real)
    ensures Moment(a, b, v, c) == Dot(a, b) - Mul(v, Dot(a, a)) - Mul(c, Sum(a))
  {
    if a != [] {
      var n := |a| - 1;
      BalanceFromSums(a[..n], b[..n], v, c);
      BalanceStep(Sum(b[..n]), Sum(a[..n]), n as real, Dot(a[..n], b[..n]), Dot(a[..n], a[..n]), a[n], b[n], v, c);
    }
  }

  lemma {:induction false} BalanceStep(sb: real, sa: real, n: real, ab: real, aa: real, x: real, y: real, v: real,
                                       c: real)
    ensures sb + y - Mul(v, sa + x) - Mul(c, n + 1.0) == (sb - Mul(v, sa) - Mul(c, n)) + Above(x, y, v, c)
    ensures ab + Mul(x, y) - Mul(v, aa + Mul(x, x)) - Mul(c, sa + x)
            == (ab - Mul(v, aa) - Mul(c, sa)) + Mul(x, Above(x, y, v, c))
  {
    assert x * (y - v * x - c) == x * y - v * (x * x) - c * x;
    assert v * (aa + x * x) == v * aa + v * (x * x);
  }

  /** The intercept that balances the residuals, for the slope that is the quotient of the spreads. */
  lemma {:induction false} SpreadsBalance(a: seq<real>, b: seq<real>, v: real) returns (c: real)
    requires |a| == |b| && a != [] && Mul(v, SpreadOf(a, a)) == SpreadOf(a, b)
    ensures Moment(a, b, v, c) == 0.0 && Residual(a, b, v, c) == 0.0
  {
    var n := |a| as real;
    c := (Sum(b) - Mul(v, Sum(a))) / n;
    BalanceFromSums(a, b, v, c);
    BalanceAlgebra(n, Sum(a), Sum(b), Dot(a, a), Dot(a, b), v, c);
  }

  lemma {:induction false} BalanceAlgebra(n: real, sa: real, sb: real, aa: real, ab: real, v: real, c: real)
    requires n > 0.0 && c == (sb - Mul(v, sa)) / n && Mul(v, Spread(n, aa, sa, sa)) == Spread(n, ab, sa, sb)
    ensures sb - Mul(v, sa) - Mul(c, n) == 0.0 && ab - Mul(v, aa) - Mul(c, sa) == 0.0
  {
    assert c * n == sb - v * sa;
    assert v * (n * aa - sa * sa) == n * ab - sa * sb;
    var m := ab - v * aa - c * sa;
    assert n * m == n * ab - v * (n * aa) - (c * n) * sa;
    assert (c * n) * sa == sa * sb - v * (sa * sa);
    assert v * (n * aa - sa * sa) == v * (n * aa) - v * (sa * sa);
    assert n * m == 0.0;
    if m > 0.0 {
      PositiveProduct(n, m);
    } else if m < 0.0 {
      PositiveProduct(n, -m);
    }
  }

  lemma {:induction false} ApartOnlyIfSteep(a: seq<real>, e: real, f: real)
    requires |a| >= 2 && a[0] < a[1] && Apart(a, e, f) <= 0.0
    ensures e == 0.0
    decreases |a|
  {
    var n := |a| - 1;
    ApartIsPositive(a[..n], e, f);
    SquareIsPositive(Gap(a[n], e, f));
    if n > 1 {
      ApartOnlyIfSteep(a[..n], e, f);
    } else {
      var first := a[..1];
      assert Apart(first, e, f) == Apart(first[..0], e, f) + Square(Gap(first[0], e, f));
      ApartIsPositive(first[..0], e, f);
      SquareIsPositive(Gap(first[0], e, f));
      SteepZero(a[0], a[1], e, f);
    }
  }

  lemma {:induction false} SteepZero(x: real, y: real, e: real, f: real)
    requires x < y && Gap(x, e, f) == 0.0 && Gap(y, e, f) == 0.0
    ensures e == 0.0
  {
    assert e * (y - x) == 0.0;
    if e > 0.0 {
      PositiveProduct(e, y - x);
    } else if e < 0.0 {
      PositiveProduct(-e, y - x);
    }
  }

  /** The quotient of the spreads is the slope of the nearest line, and no other slope is. */
  lemma {:induction false} QuotientIsBestFit(a: seq<real>, b: seq<real>, v: real, w: real)
    requires |a| == |b| && |a| >= 2 && a[0] < a[1] && Mul(v, SpreadOf(a, a)) == SpreadOf(a, b)
    ensures BestFit(a, b, w) <==> w == v
  {
    var c := SpreadsBalance(a, b, v);
    BalancedIsNearest(a, b, v, c);
    if BestFit(a, b, w) {
      var d :| NearestLine(a, b, w, d);
      ErrorMoves(a, b, v, c, w - v, d - c);
      assert SquaredError(a, b, w, d) <= SquaredError(a, b, v, c);
      ApartOnlyIfSteep(a, w - v, d - c);
    }
  }
}
