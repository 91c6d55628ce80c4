/** forecast_linear of webui/trending.py, over real numbers. */
module Forecast {
  import opened Common

  /** A sample: seconds since the first one, and its value. */
  datatype Point = Point(x: real, y: real)

  datatype Sample = Sample(at: real, value: real)

  type Term = Point -> real

  function Points(samples: seq<Sample>, t0: real): (ps: seq<Point>)
    ensures |ps| == |samples| && forall i :: 0 <= i < |ps| ==> ps[i] == Point(samples[i].at - t0, samples[i].value)
  {
    seq(|samples|, i requires 0 <= i < |samples| => Point(samples[i].at - t0, samples[i].value))
  }

  // --- sums ---------------------------------------------------------------------------

  function Sum(ps: seq<Point>, f: Term): real {
    if ps == [] then 0.0 else Sum(ps[..|ps| - 1], f) + f(ps[|ps| - 1])
  }

  /** A sum of terms that are pointwise f + c * g. */
  lemma {:induction false} SumOfCombination(ps: seq<Point>, f: Term, c: real, g: Term, h: Term)
    requires forall p :: h(p) == f(p) + c * g(p)
    ensures Sum(ps, h) == Sum(ps, f) + c * Sum(ps, g)
  {
    if ps != [] {
      var front, p := ps[..|ps| - 1], ps[|ps| - 1];
      SumOfCombination(front, f, c, g, h);
      assert h(p) == f(p) + c * g(p);
      assert c * Sum(ps, g) == c * Sum(front, g) + c * g(p);
    }
  }

  lemma {:induction false} SumOfConstant(ps: seq<Point>, c: real, f: Term)
    requires forall p :: f(p) == c
    ensures Sum(ps, f) == |ps| as real * c
  {
    if ps != [] {
      SumOfConstant(ps[..|ps| - 1], c, f);
    }
  }

  lemma {:induction false} SumOfNonNegative(ps: seq<Point>, f: Term)
    requires forall p :: f(p) >= 0.0
    ensures Sum(ps, f) >= 0.0
    ensures Sum(ps, f) == 0.0 <==> forall i :: 0 <= i < |ps| ==> f(ps[i]) == 0.0
  {
    if ps != [] {
      var front, last := ps[..|ps| - 1], ps[|ps| - 1];
      SumOfNonNegative(front, f);
      assert forall i :: 0 <= i < |front| ==> front[i] == ps[i];
      assert f(last) >= 0.0;
    }
  }

  // --- the fit --------------------------------------------------------------------------

  function X(): Term {
    (p: Point) => p.x
  }

  function Y(): Term {
    (p: Point) => p.y
  }

  function MeanX(ps: seq<Point>): real
    requires ps != []
  {
    Sum(ps, X()) / |ps| as real
  }

  function MeanY(ps: seq<Point>): real
    requires ps != []
  {
    Sum(ps, Y()) / |ps| as real
  }

  function SquareAbout(mx: real): Term {
    (p: Point) => (p.x - mx) * (p.x - mx)
  }

  function ProductAbout(mx: real, my: real): Term {
    (p: Point) => (p.x - mx) * (p.y - my)
  }

  function Denom(ps: seq<Point>): real
    requires ps != []
  {
    Sum(ps, SquareAbout(MeanX(ps)))
  }

  function Slope(ps: seq<Point>): real
    requires ps != [] && Denom(ps) != 0.0
  {
    Sum(ps, ProductAbout(MeanX(ps), MeanY(ps))) / Denom(ps)
  }

  function Intercept(ps: seq<Point>): real
    requires ps != [] && Denom(ps) != 0.0
  {
    MeanY(ps) - Slope(ps) * MeanX(ps)
  }

  datatype Forecast = Forecast(current: real, target: real, slopePerDay: real, daysToTarget: real)

  const DAY: real := 86400.0

  function ForecastLinear(samples: seq<Sample>, target: real): Option<Forecast> {
    if |samples| < 6 then None
    else
      var ps := Points(samples, samples[0].at);
      if Denom(ps) == 0.0 then None
      else
        var slope, intercept := Slope(ps), Intercept(ps);
        var current := ps[|ps| - 1].y;
        if !((slope > 0.0 && current < target) || (slope < 0.0 && current > target)) || slope == 0.0 then None
        else
          var seconds := (target - intercept) / slope - ps[|ps| - 1].x;
          if seconds <= 0.0 then None
          else Some(Forecast(current, target, slope * DAY, seconds / DAY))
  }

  // --- what the fit is ---------------------------------------------------------------------

  function ResidualOf(a: real, b: real): Term {
    (p: Point) => p.y - (a + b * p.x)
  }

  function MomentOf(a: real, b: real): Term {
    (p: Point) => p.x * (p.y - (a + b * p.x))
  }

  function ErrorOf(a: real, b: real): Term {
    (p: Point) => (p.y - (a + b * p.x)) * (p.y - (a + b * p.x))
  }

  /** The sum of squared errors of the line a + b x. */
  function SquaredError(ps: seq<Point>, a: real, b: real): real {
    Sum(ps, ErrorOf(a, b))
  }

  lemma {:induction false} SumOfSameX(ps: seq<Point>, c: real)
    requires forall i :: 0 <= i < |ps| ==> ps[i].x == c
    ensures Sum(ps, X()) == |ps| as real * c
  {
    if ps != [] {
      SumOfSameX(ps[..|ps| - 1], c);
    }
  }

  lemma SquaresAreNonNegative(mx: real)
    ensures forall p :: SquareAbout(mx)(p) >= 0.0
    ensures forall p :: SquareAbout(mx)(p) == 0.0 <==> p.x == mx
  {
    forall p
      ensures SquareAbout(mx)(p) >= 0.0 && (SquareAbout(mx)(p) == 0.0 <==> p.x == mx)
    {
      Square(p.x - mx);
    }
  }

  lemma Square(d: real)
    ensures d * d >= 0.0
    ensures d * d == 0.0 <==> d == 0.0
  {
    if d == 0.0 {
      ZeroProduct(d, d);
    } else if d * d == 0.0 {
      OneFactorIsZero(d, d);
    }
  }

  lemma ZeroProduct(x: real, y: real)
    requires y == 0.0
    ensures x * y == 0.0
  {
  }

  /** There is no fit exactly when all samples were taken at the same time. */
  lemma DenomIsZeroIffTimesAreEqual(ps: seq<Point>)
    requires ps != []
    ensures Denom(ps) >= 0.0
    ensures Denom(ps) == 0.0 <==> forall i :: 0 <= i < |ps| ==> ps[i].x == ps[0].x
  {
    var mx := MeanX(ps);
    SquaresAreNonNegative(mx);
    SumOfNonNegative(ps, SquareAbout(mx));
    if forall i :: 0 <= i < |ps| ==> ps[i].x == ps[0].x {
      SumOfSameX(ps, ps[0].x);
      assert mx == ps[0].x;
      forall i | 0 <= i < |ps|
        ensures SquareAbout(mx)(ps[i]) == 0.0
      {
      }
    } else {
      var i :| 0 <= i < |ps| && ps[i].x != ps[0].x;
      assert SquareAbout(mx)(ps[i]) != 0.0 || SquareAbout(mx)(ps[0]) != 0.0;
    }
  }

  function Const(c: real): Term {
    (p: Point) => c
  }

  /** Adding a multiple of terms that cancel out leaves a sum unchanged. */
  lemma SumWithCancelled(ps: seq<Point>, f: Term, c: real, g: Term, h: Term)
    requires forall p :: h(p) == f(p) + c * g(p)
    requires Sum(ps, g) == 0.0
    ensures Sum(ps, h) == Sum(ps, f)
  {
    SumOfCombination(ps, f, c, g, h);
    ZeroProduct(c, Sum(ps, g));
  }

  function Above(a: real): Term {
    (p: Point) => p.y - a
  }

  lemma SumOfResiduals(ps: seq<Point>, a: real, b: real)
    ensures Sum(ps, ResidualOf(a, b)) == Sum(ps, Y()) - a * |ps| as real - b * Sum(ps, X())
  {
    SumAbove(ps, a);
    SumOfCombination(ps, Above(a), -b, X(), ResidualOf(a, b));
  }

  lemma SumAbove(ps: seq<Point>, a: real)
    ensures Sum(ps, Above(a)) == Sum(ps, Y()) - a * |ps| as real
  {
    SumOfConstant(ps, 1.0, Const(1.0));
    SumOfCombination(ps, Y(), -a, Const(1.0), Above(a));
  }

  function CentredMoment(a: real, b: real, mx: real): Term {
    (p: Point) => (p.x - mx) * (p.y - (a + b * p.x))
  }

  lemma CentredMomentSplits(a: real, b: real, mx: real, my: real)
    requires a == my - b * mx
    ensures forall p :: CentredMoment(a, b, mx)(p) == ProductAbout(mx, my)(p) + (-b) * SquareAbout(mx)(p)
  {
    forall p: Point
      ensures CentredMoment(a, b, mx)(p) == ProductAbout(mx, my)(p) + (-b) * SquareAbout(mx)(p)
    {
      CentredProduct(p.x, p.y, b, mx, my);
    }
  }

  lemma CentredProduct(x: real, y: real, b: real, mx: real, my: real)
    ensures (x - mx) * (y - (my - b * mx + b * x)) == (x - mx) * (y - my) + (-b) * ((x - mx) * (x - mx))
  {
  }

  lemma MomentSplits(a: real, b: real, mx: real)
    ensures forall p :: MomentOf(a, b)(p) == CentredMoment(a, b, mx)(p) + mx * ResidualOf(a, b)(p)
  {
    forall p: Point
      ensures MomentOf(a, b)(p) == CentredMoment(a, b, mx)(p) + mx * ResidualOf(a, b)(p)
    {
      ShiftedProduct(p.x, mx, p.y - (a + b * p.x));
    }
  }

  lemma ShiftedProduct(x: real, mx: real, e: real)
    ensures x * e == (x - mx) * e + mx * e
  {
  }

  lemma SumOfCentredMoments(ps: seq<Point>, a: real, b: real, mx: real, my: real)
    requires a == my - b * mx
    ensures Sum(ps, CentredMoment(a, b, mx)) == Sum(ps, ProductAbout(mx, my)) + (-b) * Sum(ps, SquareAbout(mx))
  {
    CentredMomentSplits(a, b, mx, my);
    SumOfCombination(ps, ProductAbout(mx, my), -b, SquareAbout(mx), CentredMoment(a, b, mx));
  }

  lemma SumOfMoments(ps: seq<Point>, a: real, b: real, mx: real)
    requires Sum(ps, ResidualOf(a, b)) == 0.0
    ensures Sum(ps, MomentOf(a, b)) == Sum(ps, CentredMoment(a, b, mx))
  {
    MomentSplits(a, b, mx);
    SumWithCancelled(ps, CentredMoment(a, b, mx), mx, ResidualOf(a, b), MomentOf(a, b));
  }

  lemma QuotientCancels(n: real, d: real, q: real)
    requires d != 0.0 && q == n / d
    ensures n + (-q) * d == 0.0
  {
    assert q * d == n;
  }

  lemma MeansCancel(n: real, sx: real, sy: real, mx: real, my: real, a: real, b: real)
    requires n > 0.0 && mx == sx / n && my == sy / n && a == my - b * mx
    ensures sy - a * n - b * sx == 0.0
  {
    assert mx * n == sx && my * n == sy;
    assert (my - b * mx) * n == my * n - b * (mx * n);
  }

  /** The two normal equations of a line: its residuals add up to zero, and so do
      the residuals weighted by time. */
  predicate Normal(ps: seq<Point>, a: real, b: real) {
    Sum(ps, ResidualOf(a, b)) == 0.0 && Sum(ps, MomentOf(a, b)) == 0.0
  }

  lemma ResidualsCancel(ps: seq<Point>, a: real, b: real, mx: real, my: real)
    requires ps != [] && mx == MeanX(ps) && my == MeanY(ps) && a == my - b * mx
    ensures Sum(ps, ResidualOf(a, b)) == 0.0
  {
    SumOfResiduals(ps, a, b);
    MeansCancel(|ps| as real, Sum(ps, X()), Sum(ps, Y()), mx, my, a, b);
  }

  lemma MomentsCancel(ps: seq<Point>, a: real, b: real, mx: real, my: real)
    requires a == my - b * mx && Sum(ps, ResidualOf(a, b)) == 0.0
    requires Sum(ps, ProductAbout(mx, my)) + (-b) * Sum(ps, SquareAbout(mx)) == 0.0
    ensures Sum(ps, MomentOf(a, b)) == 0.0
  {
    SumOfMoments(ps, a, b, mx);
    SumOfCentredMoments(ps, a, b, mx, my);
  }

  lemma CentredLineIsNormal(ps: seq<Point>, a: real, b: real, mx: real, my: real)
    requires ps != [] && mx == MeanX(ps) && my == MeanY(ps) && a == my - b * mx
    requires Sum(ps, ProductAbout(mx, my)) + (-b) * Sum(ps, SquareAbout(mx)) == 0.0
    ensures Normal(ps, a, b)
  {
    ResidualsCancel(ps, a, b, mx, my);
    MomentsCancel(ps, a, b, mx, my);
  }

  lemma SlopeCancels(ps: seq<Point>, mx: real, my: real, b: real)
    requires Sum(ps, SquareAbout(mx)) != 0.0
    requires b == Sum(ps, ProductAbout(mx, my)) / Sum(ps, SquareAbout(mx))
    ensures Sum(ps, ProductAbout(mx, my)) + (-b) * Sum(ps, SquareAbout(mx)) == 0.0
  {
    QuotientCancels(Sum(ps, ProductAbout(mx, my)), Sum(ps, SquareAbout(mx)), b);
  }

  /** The fitted line meets both normal equations. */
  lemma FitIsNormal(ps: seq<Point>)
    requires ps != [] && Denom(ps) != 0.0
    ensures Normal(ps, Intercept(ps), Slope(ps))
  {
    SlopeCancels(ps, MeanX(ps), MeanY(ps), Slope(ps));
    CentredLineIsNormal(ps, Intercept(ps), Slope(ps), MeanX(ps), MeanY(ps));
  }

  /** How far two lines are apart, squared. */
  function GapOf(da: real, db: real): Term {
    (p: Point) => (da + db * p.x) * (da + db * p.x)
  }

  function Plus(f: Term, c: real, g: Term): Term {
    (p: Point) => f(p) + c * g(p)
  }

  lemma ErrorSplits(p: Point, a: real, b: real, c: real, d: real)
    ensures ErrorOf(c, d)(p) ==
            ErrorOf(a, b)(p) + 2.0 * ((a - c) * ResidualOf(a, b)(p) + (b - d) * MomentOf(a, b)(p)) + GapOf(a - c,
                b - d)(p)
  {
    var e, g := p.y - (a + b * p.x), (a - c) + (b - d) * p.x;
    assert p.y - (c + d * p.x) == e + g;
    assert (e + g) * (e + g) == e * e + 2.0 * (e * g) + g * g;
    assert e * g == (a - c) * e + (b - d) * (p.x * e);
  }

  /** A line's error is that of a line meeting the normal equations, plus the
      squared gaps between the two. */
  lemma ErrorAround(ps: seq<Point>, a: real, b: real, c: real, d: real)
    requires Normal(ps, a, b)
    ensures SquaredError(ps, c, d) == SquaredError(ps, a, b) + Sum(ps, GapOf(a - c, b - d))
  {
    ErrorSplitsInThree(a, b, c, d);
    CancelledTwice(ps, ErrorOf(a, b), 2.0 * (a - c), ResidualOf(a, b), 2.0 * (b - d), MomentOf(a, b));
    SumOfCombination(ps, ErrorAndMore(a, b, c, d), 1.0, GapOf(a - c, b - d), ErrorOf(c, d));
  }

  lemma CancelledTwice(ps: seq<Point>, f: Term, c: real, g: Term, d: real, h: Term)
    requires Sum(ps, g) == 0.0 && Sum(ps, h) == 0.0
    ensures Sum(ps, Plus(Plus(f, c, g), d, h)) == Sum(ps, f)
  {
    SumWithCancelled(ps, f, c, g, Plus(f, c, g));
    SumWithCancelled(ps, Plus(f, c, g), d, h, Plus(Plus(f, c, g), d, h));
  }

  function ErrorAndMore(a: real, b: real, c: real, d: real): Term {
    Plus(Plus(ErrorOf(a, b), 2.0 * (a - c), ResidualOf(a, b)), 2.0 * (b - d), MomentOf(a, b))
  }

  lemma ErrorSplitsInThree(a: real, b: real, c: real, d: real)
    ensures forall p :: ErrorOf(c, d)(p) == ErrorAndMore(a, b, c, d)(p) + 1.0 * GapOf(a - c, b - d)(p)
  {
    forall p: Point
      ensures ErrorOf(c, d)(p) == ErrorAndMore(a, b, c, d)(p) + 1.0 * GapOf(a - c, b - d)(p)
    {
      ErrorSplits(p, a, b, c, d);
    }
  }

  lemma GapsAreSquares(da: real, db: real)
    ensures forall p :: GapOf(da, db)(p) >= 0.0
    ensures forall p :: GapOf(da, db)(p) == 0.0 <==> da + db * p.x == 0.0
  {
    forall p
      ensures GapOf(da, db)(p) >= 0.0 && (GapOf(da, db)(p) == 0.0 <==> da + db * p.x == 0.0)
    {
      Square(da + db * p.x);
    }
  }

  lemma SumOfGaps(ps: seq<Point>, da: real, db: real)
    ensures Sum(ps, GapOf(da, db)) >= 0.0
    ensures Sum(ps, GapOf(da, db)) == 0.0 ==> forall i :: 0 <= i < |ps| ==> da + db * ps[i].x == 0.0
  {
    GapsAreSquares(da, db);
    SumOfNonNegative(ps, GapOf(da, db));
  }

  /** Lines that agree at two different times are the same line. */
  lemma NoGapMeansSameLine(ps: seq<Point>, da: real, db: real, i: nat)
    requires i < |ps| && ps[i].x != ps[0].x
    ensures Sum(ps, GapOf(da, db)) == 0.0 ==> da == 0.0 && db == 0.0
  {
    SumOfGaps(ps, da, db);
    if Sum(ps, GapOf(da, db)) == 0.0 {
      TwoPointsDecide(da, db, ps[i].x, ps[0].x);
    }
  }

  lemma TwoPointsDecide(da: real, db: real, x: real, z: real)
    requires x != z && da + db * x == 0.0 && da + db * z == 0.0
    ensures da == 0.0 && db == 0.0
  {
    assert db * (x - z) == 0.0;
    OneFactorIsZero(db, x - z);
    ZeroProduct(x, db);
  }

  lemma OneFactorIsZero(x: real, y: real)
    requires x * y == 0.0 && y != 0.0
    ensures x == 0.0
  {
    assert x == (x * y) / y;
  }

  /** The line is the least-squares line, and the only one. */
  lemma FitIsLeastSquares(ps: seq<Point>, c: real, d: real)
    requires ps != [] && Denom(ps) != 0.0
    ensures SquaredError(ps, Intercept(ps), Slope(ps)) <= SquaredError(ps, c, d)
    ensures SquaredError(ps, Intercept(ps), Slope(ps)) == SquaredError(ps, c, d) ==>
              c == Intercept(ps) && d == Slope(ps)
  {
    FitIsNormal(ps);
    DenomIsZeroIffTimesAreEqual(ps);
    var i :| 0 <= i < |ps| && ps[i].x != ps[0].x;
    NormalIsLeast(ps, Intercept(ps), Slope(ps), c, d, i);
  }

  lemma NormalIsLeast(ps: seq<Point>, a: real, b: real, c: real, d: real, i: nat)
    requires Normal(ps, a, b) && i < |ps| && ps[i].x != ps[0].x
    ensures SquaredError(ps, a, b) <= SquaredError(ps, c, d)
    ensures SquaredError(ps, a, b) == SquaredError(ps, c, d) ==> c == a && d == b
  {
    ErrorAround(ps, a, b, c, d);
    SumOfGaps(ps, a - c, b - d);
    NoGapMeansSameLine(ps, a - c, b - d, i);
  }

  // --- the forecast ------------------------------------------------------------------------

  /** The fitted line heads for the target from the last value. */
  predicate Approaches(ps: seq<Point>, target: real)
    requires ps != [] && Denom(ps) != 0.0
  {
    var current := ps[|ps| - 1].y;
    (Slope(ps) > 0.0 && current < target) || (Slope(ps) < 0.0 && current > target)
  }

  /** The fitted line takes the target value at time x. */
  predicate MeetsAt(ps: seq<Point>, target: real, x: real)
    requires ps != [] && Denom(ps) != 0.0
  {
    Intercept(ps) + Slope(ps) * x == target
  }

  lemma MeetsOnce(ps: seq<Point>, target: real, x: real)
    requires ps != [] && Denom(ps) != 0.0 && Slope(ps) != 0.0
    ensures MeetsAt(ps, target, x) <==> x == (target - Intercept(ps)) / Slope(ps)
  {
    SolvesForX(Intercept(ps), Slope(ps), target, x);
  }

  lemma SolvesForX(a: real, b: real, target: real, x: real)
    requires b != 0.0
    ensures a + b * x == target <==> x == (target - a) / b
  {
    assert (target - a) / b * b == target - a;
    if a + b * x == target {
      assert b * (x - (target - a) / b) == 0.0;
      OneFactorIsZero(x - (target - a) / b, b);
    }
  }

  lemma DaysAndSeconds(seconds: real)
    ensures seconds / DAY * DAY == seconds
    ensures seconds > 0.0 <==> seconds / DAY > 0.0
  {
  }

  /** A forecast names the one moment, after the last sample, at which the fitted
      line takes the target value, and the line heads for the target. */
  lemma ForecastMeetsTarget(samples: seq<Sample>, target: real)
    requires ForecastLinear(samples, target).Some?
    ensures |samples| >= 6
    ensures var ps := Points(samples, samples[0].at); var f := ForecastLinear(samples, target).value;
            && Denom(ps) != 0.0 && Approaches(ps, target)
            && f.current == samples[|samples| - 1].value && f.target == target && f.slopePerDay == Slope(ps) * DAY
            && f.daysToTarget > 0.0
            && forall x :: MeetsAt(ps, target, x) <==> x == ps[|ps| - 1].x + f.daysToTarget * DAY
  {
    var ps := Points(samples, samples[0].at);
    var last := ps[|ps| - 1].x;
    var meets := (target - Intercept(ps)) / Slope(ps);
    DaysAndSeconds(meets - last);
    forall x
      ensures MeetsAt(ps, target, x) <==> x == meets
    {
      MeetsOnce(ps, target, x);
    }
  }

  /** And whenever there are six samples, not all of one time, with the line heading
      for the target and meeting it after the last sample, there is a forecast. */
  lemma ForecastIsGiven(samples: seq<Sample>, target: real, x: real)
    requires |samples| >= 6
    requires exists i :: 0 <= i < |samples| && samples[i].at != samples[0].at
    ensures var ps := Points(samples, samples[0].at);
            && Denom(ps) != 0.0
            && (Approaches(ps, target) && MeetsAt(ps, target, x) && x > ps[|ps| - 1].x
                ==> ForecastLinear(samples, target).Some?)
  {
    var ps := Points(samples, samples[0].at);
    var i :| 0 <= i < |samples| && samples[i].at != samples[0].at;
    assert ps[i].x != ps[0].x;
    DenomIsZeroIffTimesAreEqual(ps);
    if Slope(ps) != 0.0 {
      MeetsOnce(ps, target, x);
    }
  }

  /** No other line is as close to the points. */
  ghost predicate IsClosest(ps: seq<Point>, a: real, b: real) {
    forall c, d :: SquaredError(ps, a, b) <= SquaredError(ps, c, d) &&
                   (SquaredError(ps, a, b) == SquaredError(ps, c, d) ==> c == a && d == b)
  }

  /** The line a + b x heads for the target from the last point, and gets there after x seconds more. */
  predicate GetsThere(last: Point, a: real, b: real, target: real, x: real) {
    && ((b > 0.0 && last.y < target) || (b < 0.0 && last.y > target))
    && x > 0.0 && a + b * (last.x + x) == target
  }

  ghost predicate Leads(ps: seq<Point>, a: real, b: real, target: real, x: real)
    requires ps != []
  {
    IsClosest(ps, a, b) && GetsThere(ps[|ps| - 1], a, b, target, x)
  }

  lemma ClosestIsTheFit(ps: seq<Point>, a: real, b: real)
    requires ps != [] && Denom(ps) != 0.0
    ensures IsClosest(ps, a, b) <==> a == Intercept(ps) && b == Slope(ps)
  {
    forall c, d
      ensures SquaredError(ps, Intercept(ps), Slope(ps)) <= SquaredError(ps, c, d)
      ensures SquaredError(ps, Intercept(ps), Slope(ps)) == SquaredError(ps, c, d) ==>
                c == Intercept(ps) && d == Slope(ps)
    {
      FitIsLeastSquares(ps, c, d);
    }
    FitIsLeastSquares(ps, a, b);
    assert IsClosest(ps, Intercept(ps), Slope(ps));
  }

  ghost predicate IsExtended(ps: seq<Point>, a: real, b: real, f: Forecast)
    requires ps != []
  {
    Leads(ps, a, b, f.target, f.daysToTarget * 86400.0) && f.slopePerDay == b * 86400.0
  }

  /** A forecast is the line closest to at least six samples, extended to the target:
      when it is given, its slope a day and the days it takes are those of that line. */
  lemma ForecastIsTheClosestLine(samples: seq<Sample>, target: real, f: Forecast)
    requires ForecastLinear(samples, target) == Some(f)
    ensures |samples| >= 6 && f.target == target && f.current == samples[|samples| - 1].value
    ensures exists a, b :: IsExtended(Points(samples, samples[0].at), a, b, f)
  {
    var ps := Points(samples, samples[0].at);
    ForecastMeetsTarget(samples, target);
    FitIsExtended(ps, f);
  }

  lemma FitIsExtended(ps: seq<Point>, f: Forecast)
    requires ps != [] && Denom(ps) != 0.0 && Approaches(ps, f.target)
    requires f.slopePerDay == Slope(ps) * DAY && f.daysToTarget > 0.0
    requires MeetsAt(ps, f.target, ps[|ps| - 1].x + f.daysToTarget * DAY)
    ensures IsExtended(ps, Intercept(ps), Slope(ps), f)
  {
    ClosestIsTheFit(ps, Intercept(ps), Slope(ps));
  }

  /** ... and it is given whenever there are six samples and such a line. */
  lemma ForecastIsGivenIff(samples: seq<Sample>, target: real)
    ensures ForecastLinear(samples, target).Some? <==>
            && |samples| >= 6
            && exists a, b, x :: Leads(Points(samples, samples[0].at), a, b, target, x)
  {
    if ForecastLinear(samples, target).Some? {
      var f := ForecastLinear(samples, target).value;
      ForecastIsTheClosestLine(samples, target, f);
      var a, b :| IsExtended(Points(samples, samples[0].at), a, b, f);
    } else if |samples| >= 6 {
      if a, b, x :| Leads(Points(samples, samples[0].at), a, b, target, x) {
        LineGivesForecast(samples, target, a, b, x);
      }
    }
  }

  lemma LineGivesForecast(samples: seq<Sample>, target: real, a: real, b: real, x: real)
    requires |samples| >= 6 && Leads(Points(samples, samples[0].at), a, b, target, x)
    ensures ForecastLinear(samples, target).Some?
  {
    LineIsTheFit(Points(samples, samples[0].at), a, b, target, x);
  }

  lemma LineIsTheFit(ps: seq<Point>, a: real, b: real, target: real, x: real)
    requires ps != [] && Leads(ps, a, b, target, x)
    ensures Denom(ps) != 0.0 && Approaches(ps, target)
    ensures Slope(ps) != 0.0 && (target - Intercept(ps)) / Slope(ps) - ps[|ps| - 1].x == x > 0.0
  {
    ClosestNeedsTwoTimes(ps, a, b);
    ClosestIsTheFit(ps, a, b);
    SolvesForX(a, b, target, ps[|ps| - 1].x + x);
  }

  /** Points of one time have no closest line: turning it about them makes no difference. */
  lemma ClosestNeedsTwoTimes(ps: seq<Point>, a: real, b: real)
    requires ps != [] && IsClosest(ps, a, b)
    ensures Denom(ps) != 0.0
  {
    if Denom(ps) == 0.0 {
      DenomIsZeroIffTimesAreEqual(ps);
      var x := ps[0].x;
      SameErrorsAtOneTime(ps, a, b, a - x, b + 1.0, x);
      assert false;
    }
  }

  lemma {:induction false} SameErrorsAtOneTime(ps: seq<Point>, a: real, b: real, c: real, d: real, x: real)
    requires (forall i :: 0 <= i < |ps| ==> ps[i].x == x) && a + b * x == c + d * x
    ensures SquaredError(ps, a, b) == SquaredError(ps, c, d)
  {
    if ps != [] {
      SameErrorsAtOneTime(ps[..|ps| - 1], a, b, c, d, x);
    }
  }
}
