/** The trend line of the long-term insights: ordinary least squares over exact reals. */
module Regression {
  import opened Wrappers

  function Sum(xs: seq<real>): real { if xs == [] then 0.0 else Sum(xs[..|xs| - 1]) + xs[|xs| - 1] }

  function Mean(xs: seq<real>): real
    requires xs != []
  {
    Sum(xs) / |xs| as real
  }

  function Times(a: real, b: real): real { a * b }

  /** Sum of (x - a) * (y - b) over the points. */
  function Moment(xs: seq<real>, a: real, ys: seq<real>, b: real): real
    requires |xs| == |ys|
  {
    if xs == [] then 0.0
    else Moment(xs[..|xs| - 1], a, ys[..|ys| - 1], b) + Times(xs[|xs| - 1] - a, ys[|ys| - 1] - b)
  }

  function Sq(x: real): real { x * x }

  /** How far a point lies above a line. */
  function Residual(x: real, y: real, slope: real, intercept: real): real { y - (slope * x + intercept) }

  /** Squared error of the line y = slope * x + intercept. */
  function Sse(xs: seq<real>, ys: seq<real>, slope: real, intercept: real): real
    requires |xs| == |ys|
  {
    if xs == [] then 0.0
    else
      Sse(xs[..|xs| - 1], ys[..|ys| - 1], slope, intercept)
      + Sq(Residual(xs[|xs| - 1], ys[|ys| - 1], slope, intercept))
  }

  /** Where a line of the given slope through the centre (mx, my) meets the vertical axis. */
  function Intercept(mx: real, my: real, slope: real): real { my - slope * mx }

  datatype Fit = Fit(slope: Option<real>, intercept: Option<real>, r2: real)

  function Clamp(x: real): real { if x < 0.0 then 0.0 else x }

  function LinearRegression(xs: seq<real>, ys: seq<real>): Fit
    requires |xs| == |ys|
  {
    if |xs| < 2 then Fit(None, None, 0.0)
    else
      var mx, my := Mean(xs), Mean(ys);
      var num, denX, denY := Moment(xs, mx, ys, my), Moment(xs, mx, xs, mx), Moment(ys, my, ys, my);
      if denX == 0.0 then Fit(None, Some(my), if denY == 0.0 then 1.0 else 0.0)
      else
        var slope := num / denX;
        var intercept := Intercept(mx, my, slope);
        if denY == 0.0 then Fit(Some(slope), Some(intercept), 1.0)
        else Fit(Some(slope), Some(intercept), Clamp(1.0 - Sse(xs, ys, slope, intercept) / denY))
  }

  /** There is a trend line exactly from two points on; a single point is not even given its own value back. */
  lemma FewPoints(xs: seq<real>, ys: seq<real>)
    requires |xs| == |ys|
    ensures LinearRegression(xs, ys).intercept.None? <==> |xs| < 2
    ensures |xs| < 2 ==> LinearRegression(xs, ys).slope.None? && LinearRegression(xs, ys).r2 == 0.0
  {
    if |xs| < 2 { assert LinearRegression(xs, ys) == Fit(None, None, 0.0); }
  }

  // ---------------------------------------------------------------- centring

  /** Moving both centres changes a moment by the sums alone. */
  lemma {:induction false} MomentShift(xs: seq<real>, a: real, ys: seq<real>, b: real)
    requires |xs| == |ys|
    ensures Moment(xs, a, ys, b) == Shifted(Products(xs, ys), Sum(xs), Sum(ys), |xs| as real, a, b)
  {
    if xs != [] {
      MomentShift(xs[..|xs| - 1], a, ys[..|ys| - 1], b);
      var xs', ys' := xs[..|xs| - 1], ys[..|ys| - 1];
      ShiftStep(Products(xs', ys'), Sum(xs'), Sum(ys'), |xs'| as real, a, b, xs[|xs| - 1], ys[|ys| - 1]);
    }
  }

  function Shifted(products: real, sx: real, sy: real, n: real, a: real, b: real): real {
    products - b * sx - a * sy + n * a * b
  }

  lemma ShiftStep(products: real, sx: real, sy: real, n: real, a: real, b: real, x: real, y: real)
    ensures Shifted(products + Times(x, y), sx + x, sy + y, n + 1.0, a, b)
            == Shifted(products, sx, sy, n, a, b) + Times(x - a, y - b)
  {
  }

  lemma OneMoreTerm(n: real, t: real)
    ensures (n + 1.0) * t == n * t + t
  {
  }

  /** The squared error of a line in terms of the sums yy, xy, xx, y, x and the number of points. */
  function Quadratic(yy: real, xy: real, xx: real, sy: real, sx: real, n: real, s: real, i: real): real {
    yy - 2.0 * s * xy + s * s * xx - 2.0 * i * sy + 2.0 * s * i * sx + n * i * i
  }

  lemma AddPoint(yy: real, xy: real, xx: real, sy: real, sx: real, n: real, s: real, i: real, x: real, y: real)
    ensures Quadratic(yy + Times(y, y), xy + Times(x, y), xx + Times(x, x), sy + y, sx + x, n + 1.0, s, i)
            == Quadratic(yy, xy, xx, sy, sx, n, s, i) + Sq(Residual(x, y, s, i))
  {
  }

  function Products(xs: seq<real>, ys: seq<real>): real
    requires |xs| == |ys|
  {
    if xs == [] then 0.0 else Products(xs[..|xs| - 1], ys[..|ys| - 1]) + Times(xs[|xs| - 1], ys[|ys| - 1])
  }

  /** The squared error as a function of the points' sums. */
  function SseOf(xs: seq<real>, ys: seq<real>, s: real, i: real): real
    requires |xs| == |ys|
  {
    Quadratic(Products(ys, ys), Products(xs, ys), Products(xs, xs), Sum(ys), Sum(xs), |xs| as real, s, i)
  }

  lemma SseOfStep(xs: seq<real>, ys: seq<real>, s: real, i: real)
    requires |xs| == |ys| > 0
    ensures SseOf(xs, ys, s, i)
            == SseOf(xs[..|xs| - 1], ys[..|ys| - 1], s, i) + Sq(Residual(xs[|xs| - 1], ys[|ys| - 1], s, i))
  {
    var xs', ys', x, y := xs[..|xs| - 1], ys[..|ys| - 1], xs[|xs| - 1], ys[|ys| - 1];
    AddPoint(Products(ys', ys'), Products(xs', ys'), Products(xs', xs'), Sum(ys'), Sum(xs'), |xs'| as real, s, i, x, y);
  }

  lemma {:induction false} SseIsQuadratic(xs: seq<real>, ys: seq<real>, s: real, i: real)
    requires |xs| == |ys|
    ensures Sse(xs, ys, s, i) == SseOf(xs, ys, s, i)
  {
    if xs == [] {
      EmptyQuadratic(s, i);
    } else {
      SseIsQuadratic(xs[..|xs| - 1], ys[..|ys| - 1], s, i);
      SseOfStep(xs, ys, s, i);
    }
  }

  lemma EmptyQuadratic(s: real, i: real)
    ensures Quadratic(0.0, 0.0, 0.0, 0.0, 0.0, 0.0, s, i) == 0.0
  {
  }

  // ---------------------------------------------------------------- optimality

  /** A product sum moved to the means a and b of n points. */
  function Recentred(products: real, n: real, a: real, b: real): real { products - n * a * b }

  function Scaled(w: real, x: real): real { w * Sq(x) }

  /** How far a line passes below the centre of the points. */
  function Below(mx: real, my: real, s: real, i: real): real { my - s * mx - i }

  /** The squared error in terms of the sums centred on the means. */
  function CentredForm(cyy: real, cxy: real, cxx: real, n: real, s: real, d: real): real {
    cyy - 2.0 * s * cxy + s * s * cxx + n * Sq(d)
  }

  lemma Centred(yy: real, xy: real, xx: real, mx: real, my: real, n: real, s: real, i: real)
    ensures Quadratic(yy, xy, xx, Times(n, my), Times(n, mx), n, s, i)
            == CentredForm(Recentred(yy, n, my, my), Recentred(xy, n, mx, my), Recentred(xx, n, mx, mx), n, s,
                Below(mx, my, s, i))
  {
  }

  /** Completing the squares. */
  lemma CompleteSquares(cyy: real, cxy: real, cxx: real, n: real, s: real, d: real, best: real)
    requires Times(best, cxx) == cxy
    ensures CentredForm(cyy, cxy, cxx, n, s, d)
            == CentredForm(cyy, cxy, cxx, n, best, 0.0) + Scaled(cxx, s - best) + Scaled(n, d)
  {
    assert s * cxy == s * best * cxx && best * cxy == best * best * cxx;
  }

  lemma SumIsMean(xs: seq<real>)
    requires xs != []
    ensures Times(|xs| as real, Mean(xs)) == Sum(xs)
  {
  }

  lemma CentredMoment(xs: seq<real>, ys: seq<real>)
    requires |xs| == |ys| > 0
    ensures Moment(xs, Mean(xs), ys, Mean(ys)) == Recentred(Products(xs, ys), |xs| as real, Mean(xs), Mean(ys))
  {
    MomentShift(xs, Mean(xs), ys, Mean(ys));
    SumIsMean(xs);
    SumIsMean(ys);
    ShiftToMeans(Products(xs, ys), |xs| as real, Mean(xs), Mean(ys));
  }

  lemma ShiftToMeans(products: real, n: real, a: real, b: real)
    ensures Shifted(products, Times(n, a), Times(n, b), n, a, b) == Recentred(products, n, a, b)
  {
  }

  lemma SseCentred(xs: seq<real>, ys: seq<real>, s: real, i: real)
    requires |xs| == |ys| > 0
    ensures var mx, my := Mean(xs), Mean(ys);
            Sse(xs, ys, s, i) == CentredForm(Moment(ys, my, ys, my), Moment(xs, mx, ys, my), Moment(xs, mx, xs, mx),
                                             |xs| as real, s, Below(mx, my, s, i))
  {
    CentredMoment(xs, ys);
    CentredMoment(xs, xs);
    CentredMoment(ys, ys);
    SumIsMean(xs);
    SumIsMean(ys);
    SseIsQuadratic(xs, ys, s, i);
    Centred(Products(ys, ys), Products(xs, ys), Products(xs, xs), Mean(xs), Mean(ys), |xs| as real, s, i);
  }

  lemma ThroughCentre(mx: real, my: real, slope: real)
    ensures Below(mx, my, slope, Intercept(mx, my, slope)) == 0.0
  {
  }

  lemma Quotient(a: real, b: real)
    requires b != 0.0
    ensures Times(a / b, b) == a
  {
  }

  /** Any line's squared error is the fitted line's plus a multiple of the squared differences of the two lines. */
  lemma ErrorGap(xs: seq<real>, ys: seq<real>, s: real, i: real)
    requires |xs| == |ys| >= 2 && Moment(xs, Mean(xs), xs, Mean(xs)) != 0.0
    ensures var f := LinearRegression(xs, ys); var mx, my := Mean(xs), Mean(ys);
            && f.slope.Some? && f.intercept == Some(Intercept(mx, my, f.slope.value))
            && Sse(xs, ys, s, i) == Sse(xs, ys, f.slope.value, f.intercept.value)
                                    + Scaled(Moment(xs, mx, xs, mx), s - f.slope.value)
                                    + Scaled(|xs| as real, Below(mx, my, s, i))
  {
    var mx, my := Mean(xs), Mean(ys);
    var cxx, cxy := Moment(xs, mx, xs, mx), Moment(xs, mx, ys, my);
    var best := LinearRegression(xs, ys).slope.value;
    Quotient(cxy, cxx);
    SseCentred(xs, ys, s, i);
    SseCentred(xs, ys, best, Intercept(mx, my, best));
    ThroughCentre(mx, my, best);
    CompleteSquares(Moment(ys, my, ys, my), cxy, cxx, |xs| as real, s, Below(mx, my, s, i), best);
  }

  lemma {:induction false} MomentNonnegative(xs: seq<real>, a: real)
    ensures Moment(xs, a, xs, a) >= 0.0
  {
    if xs != [] {
      MomentNonnegative(xs[..|xs| - 1], a);
      Square(xs[|xs| - 1] - a);
    }
  }

  lemma {:induction false} SseNonnegative(xs: seq<real>, ys: seq<real>, s: real, i: real)
    requires |xs| == |ys|
    ensures Sse(xs, ys, s, i) >= 0.0
  {
    if xs != [] {
      SseNonnegative(xs[..|xs| - 1], ys[..|ys| - 1], s, i);
      Square(Residual(xs[|xs| - 1], ys[|ys| - 1], s, i));
    }
  }

  lemma Square(x: real)
    ensures Sq(x) >= 0.0 && (Sq(x) == 0.0 <==> x == 0.0)
  {
    if x == 0.0 { assert Sq(0.0) == 0.0; } else { SquarePositive(x); }
  }

  lemma SquarePositive(x: real)
    requires x != 0.0
    ensures Sq(x) > 0.0
  {
    if x > 0.0 { Positive(x, x); } else { Positive(-x, -x); }
    assert Sq(x) == Times(x, x) == Times(-x, -x);
  }

  lemma Positive(a: real, b: real)
    requires a > 0.0 && b > 0.0
    ensures Times(a, b) > 0.0
  {
  }

  lemma Weighted(w: real, x: real)
    requires w > 0.0
    ensures Scaled(w, x) >= 0.0 && (Scaled(w, x) == 0.0 <==> x == 0.0)
  {
    Square(x);
    if x != 0.0 { Positive(w, Sq(x)); }
    assert Scaled(w, x) == Times(w, Sq(x));
  }

  lemma BelowIsZero(mx: real, my: real, s: real, i: real)
    ensures Below(mx, my, s, i) == 0.0 <==> i == Intercept(mx, my, s)
  {
  }

  /** The fitted line has the least squared error of all lines, and no other line reaches it. */
  lemma LeastSquares(xs: seq<real>, ys: seq<real>, s: real, i: real)
    requires |xs| == |ys| >= 2 && Moment(xs, Mean(xs), xs, Mean(xs)) != 0.0
    ensures var f := LinearRegression(xs, ys);
            && f.slope.Some? && f.intercept.Some?
            && Sse(xs, ys, f.slope.value, f.intercept.value) <= Sse(xs, ys, s, i)
            && (Sse(xs, ys, f.slope.value, f.intercept.value) == Sse(xs, ys, s, i) <==>
                  s == f.slope.value && i == f.intercept.value)
  {
    ErrorGap(xs, ys, s, i);
    var f := LinearRegression(xs, ys);
    MomentNonnegative(xs, Mean(xs));
    Weighted(Moment(xs, Mean(xs), xs, Mean(xs)), s - f.slope.value);
    Weighted(|xs| as real, Below(Mean(xs), Mean(ys), s, i));
    BelowIsZero(Mean(xs), Mean(ys), s, i);
  }

  /** The flat line through the mean has exactly the variance as its error. */
  lemma {:induction false} FlatLine(xs: seq<real>, ys: seq<real>, b: real)
    requires |xs| == |ys|
    ensures Sse(xs, ys, 0.0, b) == Moment(ys, b, ys, b)
  {
    if xs != [] {
      FlatLine(xs[..|xs| - 1], ys[..|ys| - 1], b);
      assert Residual(xs[|xs| - 1], ys[|ys| - 1], 0.0, b) == ys[|ys| - 1] - b;
    }
  }

  /** The coefficient of determination lies between 0 and 1 without the clamp, which never changes it. */
  lemma ClampIsIdle(xs: seq<real>, ys: seq<real>)
    requires |xs| == |ys| >= 2 && Moment(xs, Mean(xs), xs, Mean(xs)) != 0.0 && Moment(ys, Mean(ys), ys, Mean(ys)) != 0.0
    ensures var f := LinearRegression(xs, ys);
            && f.slope.Some? && f.intercept.Some?
            && var raw := 1.0 - Sse(xs, ys, f.slope.value, f.intercept.value) / Moment(ys, Mean(ys), ys, Mean(ys));
               0.0 <= raw <= 1.0 && f.r2 == raw
  {
    LeastSquares(xs, ys, 0.0, Mean(ys));
    FlatLine(xs, ys, Mean(ys));
    var f := LinearRegression(xs, ys);
    SseNonnegative(xs, ys, f.slope.value, f.intercept.value);
    MomentNonnegative(ys, Mean(ys));
    Ratio(Sse(xs, ys, f.slope.value, f.intercept.value), Moment(ys, Mean(ys), ys, Mean(ys)));
  }

  lemma Ratio(a: real, b: real)
    requires 0.0 <= a <= b && b > 0.0
    ensures 0.0 <= a / b <= 1.0 && (a / b == 0.0 <==> a == 0.0)
  {
    var q := a / b;
    assert q * b == a;
  }

  /** All points lie on the line. */
  ghost predicate OnLine(xs: seq<real>, ys: seq<real>, s: real, i: real)
    requires |xs| == |ys|
  {
    forall k :: 0 <= k < |xs| ==> ys[k] == s * xs[k] + i
  }

  lemma {:induction false} NoErrorOnLine(xs: seq<real>, ys: seq<real>, s: real, i: real)
    requires |xs| == |ys|
    ensures Sse(xs, ys, s, i) == 0.0 <==> OnLine(xs, ys, s, i)
  {
    if xs != [] {
      var xs', ys' := xs[..|xs| - 1], ys[..|ys| - 1];
      NoErrorOnLine(xs', ys', s, i);
      SseNonnegative(xs', ys', s, i);
      Square(Residual(xs[|xs| - 1], ys[|ys| - 1], s, i));
      assert OnLine(xs, ys, s, i) <==> OnLine(xs', ys', s, i) && ys[|ys| - 1] == s * xs[|xs| - 1] + i;
    }
  }

  /** A coefficient of 1 means a perfect fit, and only that. */
  lemma PerfectFit(xs: seq<real>, ys: seq<real>)
    requires |xs| == |ys| >= 2 && Moment(xs, Mean(xs), xs, Mean(xs)) != 0.0 && Moment(ys, Mean(ys), ys, Mean(ys)) != 0.0
    ensures var f := LinearRegression(xs, ys);
            f.slope.Some? && f.intercept.Some? && (f.r2 == 1.0 <==> OnLine(xs, ys, f.slope.value, f.intercept.value))
  {
    ClampIsIdle(xs, ys);
    var f := LinearRegression(xs, ys);
    NoErrorOnLine(xs, ys, f.slope.value, f.intercept.value);
    SseNonnegative(xs, ys, f.slope.value, f.intercept.value);
    MomentNonnegative(ys, Mean(ys));
    var a, b := Sse(xs, ys, f.slope.value, f.intercept.value), Moment(ys, Mean(ys), ys, Mean(ys));
    assert (a / b) * b == a;
  }

  /** The guard before the division fails exactly when all abscissas are equal. */
  lemma NoSpread(xs: seq<real>)
    requires xs != []
    ensures Moment(xs, Mean(xs), xs, Mean(xs)) == 0.0 <==> forall k :: 0 <= k < |xs| ==> xs[k] == xs[0]
  {
    FlatLine(xs, xs, Mean(xs));
    NoErrorOnLine(xs, xs, 0.0, Mean(xs));
    assert OnLine(xs, xs, 0.0, Mean(xs)) <==> forall k :: 0 <= k < |xs| ==> xs[k] == Mean(xs);
    if forall k :: 0 <= k < |xs| ==> xs[k] == xs[0] { ConstantSum(xs, xs[0]); }
  }

  /** A constant series gets the flat line through it and coefficient 1. */
  lemma ConstantSeries(xs: seq<real>, ys: seq<real>)
    requires |xs| == |ys| >= 2 && Moment(xs, Mean(xs), xs, Mean(xs)) != 0.0
    requires forall k :: 0 <= k < |ys| ==> ys[k] == ys[0]
    ensures LinearRegression(xs, ys) == Fit(Some(0.0), Some(ys[0]), 1.0)
  {
    NoSpread(ys);
    assert OnLine(xs, ys, 0.0, ys[0]);
    NoErrorOnLine(xs, ys, 0.0, ys[0]);
    LeastSquares(xs, ys, 0.0, ys[0]);
    var f := LinearRegression(xs, ys);
    SseNonnegative(xs, ys, f.slope.value, f.intercept.value);
  }

  /** Without spread in the abscissas there is no slope, and the coefficient says whether the values are all equal. */
  lemma NoSlope(xs: seq<real>, ys: seq<real>)
    requires |xs| == |ys| >= 2 && forall k :: 0 <= k < |xs| ==> xs[k] == xs[0]
    ensures var f := LinearRegression(xs, ys);
            && f.slope == None && f.intercept == Some(Mean(ys))
            && f.r2 == if forall k :: 0 <= k < |ys| ==> ys[k] == ys[0] then 1.0 else 0.0
  {
    NoSpread(xs);
    NoSpread(ys);
  }

  lemma {:induction false} ConstantSum(xs: seq<real>, x: real)
    requires forall k :: 0 <= k < |xs| ==> xs[k] == x
    ensures Sum(xs) == |xs| as real * x && (xs != [] ==> Mean(xs) == x)
  {
    if xs != [] {
      ConstantSum(xs[..|xs| - 1], x);
      OneMoreTerm((|xs| - 1) as real, x);
    }
  }
}
