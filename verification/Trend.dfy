/** The trend of a soak run: `_slope_per_hour` over exact numbers, and why it is the least-squares
    line. */
module Trend {

  datatype Sample = Sample(elapsedSeconds: real, value: real)

  datatype Point = Point(x: real, y: real)

  function Points(samples: seq<Sample>): (p: seq<Point>)
    ensures |p| == |samples|
  {
    seq(|samples|, i requires 0 <= i < |samples| => Point(samples[i].elapsedSeconds / 3600.0, samples[i].value))
  }

  function SumX(p: seq<Point>): real {
    if p == [] then 0.0 else SumX(p[..|p| - 1]) + p[|p| - 1].x
  }

  function SumY(p: seq<Point>): real {
    if p == [] then 0.0 else SumY(p[..|p| - 1]) + p[|p| - 1].y
  }

  function Square(a: real): real { a * a }

  function Product(a: real, b: real): real { a * b }

  function Line(a: real, b: real, x: real): real { a * x + b }

  /** Sum of squared distances of the times from `mx`. */
  function Spread(p: seq<Point>, mx: real): real {
    if p == [] then 0.0 else Spread(p[..|p| - 1], mx) + Square(p[|p| - 1].x - mx)
  }

  function Covariation(p: seq<Point>, mx: real, my: real): real {
    if p == [] then 0.0
    else Covariation(p[..|p| - 1], mx, my) + Product(p[|p| - 1].x - mx, p[|p| - 1].y - my)
  }

  function MeanX(p: seq<Point>): real
    requires p != []
  {
    SumX(p) / |p| as real
  }

  function MeanY(p: seq<Point>): real
    requires p != []
  {
    SumY(p) / |p| as real
  }

  function Slope(p: seq<Point>): real {
    if |p| < 2 then 0.0
    else
      var mx, my := MeanX(p), MeanY(p);
      if Spread(p, mx) <= 0.0 then 0.0 else Covariation(p, mx, my) / Spread(p, mx)
  }

  function SlopePerHour(samples: seq<Sample>): real {
    Slope(Points(samples))
  }

  /** The intercept that puts the line through the means. */
  function Intercept(p: seq<Point>): real
    requires p != []
  {
    MeanY(p) - Product(Slope(p), MeanX(p))
  }

  /** Sum of squared residuals of the line `y = a * x + b`. */
  function Residuals(p: seq<Point>, a: real, b: real): real {
    if p == [] then 0.0 else Residuals(p[..|p| - 1], a, b) + Square(p[|p| - 1].y - Line(a, b, p[|p| - 1].x))
  }

  function SpreadY(p: seq<Point>, my: real): real {
    if p == [] then 0.0 else SpreadY(p[..|p| - 1], my) + Square(p[|p| - 1].y - my)
  }

  // ---------------------------------------------------------------- algebra

  /** The residual sum as a function of five sums taken from a centre, the slope `a`, and the
      distance `e` of the line from the centre. */
  function Total(sy: real, c: real, s: real, u: real, v: real, n: real, a: real, e: real): real {
    sy - 2.0 * a * c + a * a * s + 2.0 * e * (v - a * u) + n * (e * e)
  }

  lemma OneMorePoint(sy: real, c: real, s: real, u: real, v: real, n: real, x: real, y: real, a: real, b: real,
      mx: real, my: real, e: real)
    requires e == my - Line(a, b, mx)
    ensures Total(sy + Square(y - my), c + Product(x - mx, y - my), s + Square(x - mx), u + (x - mx), v + (y - my), n + 1.0, a, e) ==
      Total(sy, c, s, u, v, n, a, e) + Square(y - Line(a, b, x))
  {
  }

  /** Sums of the signed distances from a centre. */
  function OffsetX(p: seq<Point>, mx: real): real {
    if p == [] then 0.0 else OffsetX(p[..|p| - 1], mx) + (p[|p| - 1].x - mx)
  }

  function OffsetY(p: seq<Point>, my: real): real {
    if p == [] then 0.0 else OffsetY(p[..|p| - 1], my) + (p[|p| - 1].y - my)
  }

  lemma OneMoreTimes(n: nat, m: real)
    ensures (n + 1) as real * m == n as real * m + m
  {
  }

  lemma {:induction false} Offsets(p: seq<Point>, mx: real, my: real)
    ensures OffsetX(p, mx) == SumX(p) - |p| as real * mx
    ensures OffsetY(p, my) == SumY(p) - |p| as real * my
  {
    if p == [] {
      assert 0.0 * mx == 0.0 && 0.0 * my == 0.0;
    } else {
      Offsets(p[..|p| - 1], mx, my);
      OneMoreTimes(|p| - 1, mx);
      OneMoreTimes(|p| - 1, my);
    }
  }

  lemma {:induction false} ResidualsFromCentre(p: seq<Point>, a: real, b: real, mx: real, my: real, e: real)
    requires e == my - Line(a, b, mx)
    ensures Residuals(p, a, b) ==
      Total(SpreadY(p, my), Covariation(p, mx, my), Spread(p, mx), OffsetX(p, mx), OffsetY(p, my), |p| as real, a, e)
  {
    hide Total, Square, Product, Line;
    if p == [] {
      TotalOfNothing(a, e);
    } else {
      var q, l := p[..|p| - 1], p[|p| - 1];
      ResidualsFromCentre(q, a, b, mx, my, e);
      OneMorePoint(SpreadY(q, my), Covariation(q, mx, my), Spread(q, mx), OffsetX(q, mx), OffsetY(q, my), |q| as real,
        l.x, l.y, a, b, mx, my, e);
      assert |p| as real == |q| as real + 1.0;
    }
  }

  lemma TotalOfNothing(a: real, e: real)
    ensures Total(0.0, 0.0, 0.0, 0.0, 0.0, 0.0, a, e) == 0.0
  {
  }

  lemma MeansAreCentres(p: seq<Point>)
    requires p != []
    ensures |p| as real * MeanX(p) == SumX(p) && |p| as real * MeanY(p) == SumY(p)
  {
  }

  lemma Divided(a: real, n: real)
    requires n != 0.0
    ensures n * (a / n) == a
  {
  }

  lemma {:induction false} SpreadNotNegative(p: seq<Point>, mx: real)
    ensures Spread(p, mx) >= 0.0
    ensures Spread(p, mx) == 0.0 <==> forall i :: 0 <= i < |p| ==> p[i].x == mx
  {
    if p != [] {
      var q, l := p[..|p| - 1], p[|p| - 1];
      SpreadNotNegative(q, mx);
      SquareNotNegative(l.x - mx);
      assert forall i :: 0 <= i < |q| ==> q[i] == p[i];
    }
  }

  lemma SquareNotNegative(a: real)
    ensures Square(a) >= 0.0 && (Square(a) == 0.0 <==> a == 0.0)
  {
    if a == 0.0 {
      assert 0.0 * a == 0.0;
    } else {
      assert Square(a) / a == a;
    }
  }

  lemma LineIs(a: real, b: real, x: real)
    ensures Line(a, b, x) == Product(a, x) + b
  {
  }

  /** How much worse any line is than the trend line. */
  lemma Excess(sy: real, c: real, s: real, n: real, a: real, e: real)
    requires s > 0.0
    ensures Total(sy, c, s, 0.0, 0.0, n, a, e) == Total(sy, c, s, 0.0, 0.0, n, c / s, 0.0) + Product(s, Square(a - c / s)) + Product(n, Square(e))
  {
  }

  /** The times are not all the same. */
  predicate Spans(p: seq<Point>) {
    |p| >= 2 && Spread(p, MeanX(p)) > 0.0
  }

  /** The sum of squared residuals of any line exceeds that of the trend line by what its slope and
      its height at the mean time miss. */
  lemma ResidualsExceed(p: seq<Point>, a: real, b: real)
    requires Spans(p)
    ensures Residuals(p, a, b) == Residuals(p, Slope(p), Intercept(p))
      + Product(Spread(p, MeanX(p)), Square(a - Slope(p))) + Product(|p| as real, Square(MeanY(p) - Line(a, b, MeanX(p))))
  {
    hide Total, Square, Spread, Residuals, Covariation, SpreadY, MeanX, MeanY, Product, Line;
    var mx, my, n := MeanX(p), MeanY(p), |p| as real;
    MeansAreCentres(p);
    var e := my - Line(a, b, mx);
    LineIs(Slope(p), Intercept(p), mx);
    ResidualsFromCentre(p, a, b, mx, my, e);
    ResidualsFromCentre(p, Slope(p), Intercept(p), mx, my, 0.0);
    Offsets(p, mx, my);
    assert OffsetX(p, mx) == 0.0 && OffsetY(p, my) == 0.0;
    assert Slope(p) == Covariation(p, mx, my) / Spread(p, mx);
    Excess(SpreadY(p, my), Covariation(p, mx, my), Spread(p, mx), n, a, e);
  }

  /** The trend line is the least-squares line, and the only one. */
  lemma TrendIsLeastSquares(p: seq<Point>, a: real, b: real)
    requires Spans(p)
    ensures Residuals(p, a, b) >= Residuals(p, Slope(p), Intercept(p))
    ensures Residuals(p, a, b) == Residuals(p, Slope(p), Intercept(p)) <==> a == Slope(p) && b == Intercept(p)
  {
    hide Square, Spread, Residuals, Slope, MeanX, MeanY, Product, Line;
    LineIs(a, b, MeanX(p));
    var s, n, d, e := Spread(p, MeanX(p)), |p| as real, a - Slope(p), MeanY(p) - Line(a, b, MeanX(p));
    ResidualsExceed(p, a, b);
    SquareNotNegative(d);
    SquareNotNegative(e);
    Positive(s, Square(d));
    Positive(n, Square(e));
  }

  lemma Positive(s: real, q: real)
    requires s > 0.0 && q >= 0.0
    ensures Product(s, q) >= 0.0 && (Product(s, q) == 0.0 <==> q == 0.0)
  {
  }

  /** Points on a line have that line's slope. */
  lemma SlopeOfALine(p: seq<Point>, a: real, b: real)
    requires Spans(p)
    requires forall i :: 0 <= i < |p| ==> p[i].y == Line(a, b, p[i].x)
    ensures Slope(p) == a && Intercept(p) == b
  {
    hide Square, Spread, Slope, MeanX, MeanY, Residuals;
    NoResiduals(p, a, b);
    TrendIsLeastSquares(p, a, b);
    ResidualsNotNegative(p, Slope(p), Intercept(p));
  }

  lemma {:induction false} NoResiduals(p: seq<Point>, a: real, b: real)
    requires forall i :: 0 <= i < |p| ==> p[i].y == Line(a, b, p[i].x)
    ensures Residuals(p, a, b) == 0.0
  {
    if p != [] {
      NoResiduals(p[..|p| - 1], a, b);
      SquareNotNegative(0.0);
    }
  }

  lemma {:induction false} ResidualsNotNegative(p: seq<Point>, a: real, b: real)
    ensures Residuals(p, a, b) >= 0.0
  {
    if p != [] {
      ResidualsNotNegative(p[..|p| - 1], a, b);
      SquareNotNegative(p[|p| - 1].y - (a * p[|p| - 1].x + b));
    }
  }

  /** Without two different times the trend is reported as flat. */
  lemma FlatWithoutSpan(p: seq<Point>)
    ensures !Spans(p) ==> Slope(p) == 0.0
    ensures Spans(p) <==> exists i, j :: 0 <= i < j < |p| && p[i].x != p[j].x
  {
    if |p| >= 2 {
      SpreadNotNegative(p, MeanX(p));
      if forall i, j :: 0 <= i < j < |p| ==> p[i].x == p[j].x {
        assert forall i :: 0 <= i < |p| ==> p[i].x == p[0].x;
        SumOfEqual(p, p[0].x);
        MeansAreCentres(p);
        Cancel(|p| as real, MeanX(p), p[0].x);
      }
    }
  }

  lemma {:induction false} SumOfEqual(p: seq<Point>, x: real)
    requires forall i :: 0 <= i < |p| ==> p[i].x == x
    ensures SumX(p) == |p| as real * x
  {
    if p != [] {
      SumOfEqual(p[..|p| - 1], x);
      OneMoreTimes(|p| - 1, x);
    }
  }

  lemma Cancel(n: real, a: real, b: real)
    requires n > 0.0 && n * a == n * b
    ensures a == b
  {
  }

  // ---------------------------------------------------------------- other origins and units

  /** The same points in other units and from another origin. */
  function Moved(p: seq<Point>, h: real, c: real, k: real, d: real): (q: seq<Point>)
    ensures |q| == |p|
    ensures forall i :: 0 <= i < |p| ==> q[i] == Point(Line(h, c, p[i].x), Line(k, d, p[i].y))
  {
    seq(|p|, i requires 0 <= i < |p| => Point(Line(h, c, p[i].x), Line(k, d, p[i].y)))
  }

  lemma MovedFront(p: seq<Point>, h: real, c: real, k: real, d: real)
    requires p != []
    ensures Moved(p, h, c, k, d)[..|p| - 1] == Moved(p[..|p| - 1], h, c, k, d)
  {
    hide Line;
  }

  lemma ProductAdds(a: real, b: real, c: real)
    ensures Product(a, b + c) == Product(a, b) + Product(a, c)
  {
  }

  lemma ProductOfNothing(a: real)
    ensures Product(a, 0.0) == 0.0
  {
  }

  lemma MovedProduct(h: real, c: real, k: real, d: real, x: real, m: real, y: real, n: real)
    ensures Product(Line(h, c, x) - Line(h, c, m), Line(k, d, y) - Line(k, d, n)) == Product(Product(h, k), Product(x - m, y - n))
  {
  }

  lemma SquareIsProduct(a: real)
    ensures Square(a) == Product(a, a)
  {
  }

  lemma {:induction false} MovedSums(p: seq<Point>, h: real, c: real, k: real, d: real)
    ensures var q := Moved(p, h, c, k, d);
      SumX(q) == Product(h, SumX(p)) + |p| as real * c && SumY(q) == Product(k, SumY(p)) + |p| as real * d
  {
    hide Product, Line;
    if p == [] {
      ProductOfNothing(h);
      ProductOfNothing(k);
      assert 0.0 * c == 0.0 && 0.0 * d == 0.0;
    } else {
      var l := p[|p| - 1];
      MovedFront(p, h, c, k, d);
      MovedSums(p[..|p| - 1], h, c, k, d);
      LineIs(h, c, l.x);
      LineIs(k, d, l.y);
      ProductAdds(h, SumX(p[..|p| - 1]), l.x);
      ProductAdds(k, SumY(p[..|p| - 1]), l.y);
      OneMoreTimes(|p| - 1, c);
      OneMoreTimes(|p| - 1, d);
    }
  }

  lemma Averaged(h: real, s: real, n: real, c: real, moved: real)
    requires n != 0.0 && moved == Product(h, s) + n * c
    ensures moved / n == Line(h, c, s / n)
  {
  }

  lemma MovedMeans(p: seq<Point>, h: real, c: real, k: real, d: real)
    requires p != []
    ensures MeanX(Moved(p, h, c, k, d)) == Line(h, c, MeanX(p))
    ensures MeanY(Moved(p, h, c, k, d)) == Line(k, d, MeanY(p))
  {
    hide Product, Line;
    MovedSums(p, h, c, k, d);
    Averaged(h, SumX(p), |p| as real, c, SumX(Moved(p, h, c, k, d)));
    Averaged(k, SumY(p), |p| as real, d, SumY(Moved(p, h, c, k, d)));
  }

  lemma {:induction false} MovedSpread(p: seq<Point>, h: real, c: real, k: real, d: real, m: real, n: real)
    ensures var q := Moved(p, h, c, k, d);
      && Spread(q, Line(h, c, m)) == Product(Product(h, h), Spread(p, m))
      && Covariation(q, Line(h, c, m), Line(k, d, n)) == Product(Product(h, k), Covariation(p, m, n))
  {
    hide Product, Line, Square;
    if p == [] {
      ProductOfNothing(Product(h, h));
      ProductOfNothing(Product(h, k));
    } else {
      var l, front := p[|p| - 1], p[..|p| - 1];
      MovedFront(p, h, c, k, d);
      MovedSpread(front, h, c, k, d, m, n);
      MovedProduct(h, c, h, c, l.x, m, l.x, m);
      MovedProduct(h, c, k, d, l.x, m, l.y, n);
      SquareIsProduct(Line(h, c, l.x) - Line(h, c, m));
      SquareIsProduct(l.x - m);
      ProductAdds(Product(h, h), Spread(front, m), Square(l.x - m));
      ProductAdds(Product(h, k), Covariation(front, m, n), Product(l.x - m, l.y - n));
    }
  }

  lemma Ratio(h: real, k: real, c: real, s: real)
    requires h != 0.0 && s > 0.0
    ensures Product(Product(h, h), s) > 0.0
    ensures Product(Product(h, k), c) / Product(Product(h, h), s) == Product(k, c / s) / h
  {
    var t := c / s;
    Divided(c, s);
    SquareNotNegative(h);
    SquareIsProduct(h);
    Positive(s, Product(h, h));
    var w := Product(Product(h, h), s);
    assert w == Product(s, Product(h, h));
    var r := Product(k, t) / h;
    Divided(Product(k, t), h);
    assert h * r == k * t && c == s * t;
    assert h * k * c == w * r by {
      assert h * k * (s * t) == h * s * (k * t);
      assert h * s * (h * r) == h * h * s * r;
    }
    assert Product(Product(h, k), c) == w * r;
    Quotient(w, r);
  }

  lemma Quotient(w: real, r: real)
    requires w != 0.0
    ensures (w * r) / w == r
  {
  }

  /** Another origin leaves the slope alone; other units scale it. */
  lemma SlopeMoves(p: seq<Point>, h: real, c: real, k: real, d: real)
    requires h != 0.0
    ensures Slope(Moved(p, h, c, k, d)) == Product(k, Slope(p)) / h
  {
    hide Product, Line, Square, Moved, MeanX, MeanY;
    var q := Moved(p, h, c, k, d);
    assert |q| == |p|;
    if |p| >= 2 {
      MovedMeans(p, h, c, k, d);
      MovedSpread(p, h, c, k, d, MeanX(p), MeanY(p));
      if Spread(p, MeanX(p)) > 0.0 {
        Ratio(h, k, Covariation(p, MeanX(p), MeanY(p)), Spread(p, MeanX(p)));
      } else {
        SpreadNotNegative(p, MeanX(p));
        ProductOfNothing(Product(h, h));
        ProductOfNothing(k);
      }
    } else {
      ProductOfNothing(k);
    }
  }

  function Rescaled(samples: seq<Sample>, shift: real, k: real, d: real): (r: seq<Sample>)
    ensures |r| == |samples|
  {
    seq(|samples|, i requires 0 <= i < |samples| =>
      Sample(samples[i].elapsedSeconds + shift, Line(k, d, samples[i].value)))
  }

  /** Starting the clock earlier or later and adding to every value change nothing; scaling the
      values scales the trend. */
  lemma TrendOfRescaled(samples: seq<Sample>, shift: real, k: real, d: real)
    ensures SlopePerHour(Rescaled(samples, shift, k, d)) == Product(k, SlopePerHour(samples))
  {
    hide Product, Slope;
    var p := Points(samples);
    forall i | 0 <= i < |samples|
      ensures Points(Rescaled(samples, shift, k, d))[i] == Moved(p, 1.0, shift / 3600.0, k, d)[i]
    {
      assert Line(1.0, shift / 3600.0, p[i].x) == p[i].x + shift / 3600.0;
    }
    assert Points(Rescaled(samples, shift, k, d)) == Moved(p, 1.0, shift / 3600.0, k, d);
    SlopeMoves(p, 1.0, shift / 3600.0, k, d);
    assert Product(k, Slope(p)) / 1.0 == Product(k, Slope(p));
  }
  /** Values that grow by `k` every 3600 seconds have the trend `k`; without two different times there is
      no trend. */
  lemma TrendIsPerHour(samples: seq<Sample>, k: real, d: real)
    requires forall i :: 0 <= i < |samples| ==> samples[i].value == k * (samples[i].elapsedSeconds / 3600.0) + d
    ensures SlopePerHour(samples) ==
      if exists i, j :: 0 <= i < j < |samples| && samples[i].elapsedSeconds != samples[j].elapsedSeconds then k else 0.0
  {
    hide Slope, Spans;
    var p := Points(samples);
    FlatWithoutSpan(p);
    if i, j :| 0 <= i < j < |samples| && samples[i].elapsedSeconds != samples[j].elapsedSeconds {
      assert p[i].x != p[j].x by { Hours(samples[i].elapsedSeconds, samples[j].elapsedSeconds); }
      SlopeOfALine(p, k, d);
    }
  }

  lemma Hours(a: real, b: real)
    requires a != b
    ensures a / 3600.0 != b / 3600.0
  {
  }
}
