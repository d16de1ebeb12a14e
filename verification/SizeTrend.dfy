/** The disk-growth fit (internal/analyzer/risk.go) over exact reals. */
module SizeTrend {
  import opened Common

  const NS_PER_DAY := 86_400_000_000_000
  const MIN_SIZE_TREND_SPAN := NS_PER_DAY

  // capturedAt in nanoseconds.
  datatype Sample = Sample(capturedAt: int, clusterBytes: int)

  datatype Trend = Trend(currentBytes: int, growthPerDay: real, span: int, samples: nat)

  // A sample as a point: days since the first sample, and bytes.
  datatype Point = Point(x: real, y: real)

  function Days(ns: int): real
  {
    ns as real / NS_PER_DAY as real
  }

  function Points(first: int, samples: seq<Sample>): (ps: seq<Point>)
    ensures |ps| == |samples|
    ensures forall i :: 0 <= i < |samples| ==>
      ps[i] == Point(Days(samples[i].capturedAt - first), samples[i].clusterBytes as real)
  {
    seq(|samples|, i requires 0 <= i < |samples| =>
      Point(Days(samples[i].capturedAt - first), samples[i].clusterBytes as real))
  }

  // ----- Sums over points -----

  function SumX(ps: seq<Point>): real
  {
    if ps == [] then 0.0 else SumX(ps[..|ps| - 1]) + ps[|ps| - 1].x
  }

  function SumY(ps: seq<Point>): real
  {
    if ps == [] then 0.0 else SumY(ps[..|ps| - 1]) + ps[|ps| - 1].y
  }

  function SumXY(ps: seq<Point>): real
  {
    if ps == [] then 0.0 else SumXY(ps[..|ps| - 1]) + ps[|ps| - 1].x * ps[|ps| - 1].y
  }

  function SumXX(ps: seq<Point>): real
  {
    if ps == [] then 0.0 else SumXX(ps[..|ps| - 1]) + ps[|ps| - 1].x * ps[|ps| - 1].x
  }

  lemma SumsSnoc(s: seq<Point>, p: Point)
    ensures SumX(s + [p]) == SumX(s) + p.x
    ensures SumY(s + [p]) == SumY(s) + p.y
    ensures SumXY(s + [p]) == SumXY(s) + p.x * p.y
    ensures SumXX(s + [p]) == SumXX(s) + p.x * p.x
  {
  }

  // What holds of no points, and survives one more point, holds of all lists of points.
  lemma {:induction false} SnocInduction(P: seq<Point> -> bool, ps: seq<Point>)
    requires P([])
    requires forall s, p :: P(s) ==> P(s + [p])
    ensures P(ps)
  {
    if ps != [] {
      var s, p := ps[..|ps| - 1], ps[|ps| - 1];
      SnocInduction(P, s);
      assert ps == s + [p];
    }
  }

  // ----- The fitted line -----

  function Scaled(n: real, a: real, b: real, ab: real): real
  {
    n * ab - a * b
  }

  function Numerator(ps: seq<Point>): real
  {
    Scaled(|ps| as real, SumX(ps), SumY(ps), SumXY(ps))
  }

  function Denominator(ps: seq<Point>): real
  {
    Scaled(|ps| as real, SumX(ps), SumX(ps), SumXX(ps))
  }

  function Slope(ps: seq<Point>): real
    requires Denominator(ps) != 0.0
  {
    Numerator(ps) / Denominator(ps)
  }

  // The intercept that belongs to a slope: the line through the mean point.
  function Intercept(ps: seq<Point>, slope: real): real
    requires ps != []
  {
    (SumY(ps) - slope * SumX(ps)) / |ps| as real
  }

  function Mul(u: real, v: real): real
  {
    u * v
  }

  function Square(r: real): real
  {
    Mul(r, r)
  }

  function Residual(p: Point, a: real, b: real): real
  {
    p.y - (a + b * p.x)
  }

  // The squared error of the line y = a + b x.
  function Error(ps: seq<Point>, a: real, b: real): real
  {
    if ps == [] then 0.0 else Error(ps[..|ps| - 1], a, b) + Square(Residual(ps[|ps| - 1], a, b))
  }

  // ----- The scaled sums as sums over pairs of points -----

  function Product(p: Point, q: Point): real
  {
    Mul(q.x - p.x, q.y - p.y)
  }

  // What point q adds, paired with every point of ps.
  function Pairs(ps: seq<Point>, q: Point): real
  {
    if ps == [] then 0.0 else Pairs(ps[..|ps| - 1], q) + Product(ps[|ps| - 1], q)
  }

  lemma PairsSnoc(s: seq<Point>, p: Point, q: Point)
    ensures Pairs(s + [p], q) == Pairs(s, q) + Product(p, q)
  {
  }

  function Spread(n: real, sx: real, sy: real, sxy: real, q: Point): real
  {
    sxy + n * (q.x * q.y) - q.x * sy - q.y * sx
  }

  lemma SpreadStep(n: real, sx: real, sy: real, sxy: real, q: Point, p: Point, n': real, sx': real, sy': real, sxy': real)
    requires n' == n + 1.0 && sx' == sx + p.x && sy' == sy + p.y && sxy' == sxy + p.x * p.y
    ensures Spread(n', sx', sy', sxy', q) == Spread(n, sx, sy, sxy, q) + Product(p, q)
  {
  }

  lemma {:induction false} PairsExpand(ps: seq<Point>, q: Point)
    ensures Pairs(ps, q) == Spread(|ps| as real, SumX(ps), SumY(ps), SumXY(ps), q)
  {
    var P := s => Pairs(s, q) == Spread(|s| as real, SumX(s), SumY(s), SumXY(s), q);
    forall s, p | P(s)
      ensures P(s + [p])
    {
      var s' := s + [p];
      SumsSnoc(s, p);
      PairsSnoc(s, p, q);
      SpreadStep(|s| as real, SumX(s), SumY(s), SumXY(s), q, p, |s'| as real, SumX(s'), SumY(s'), SumXY(s'));
    }
    SnocInduction(P, ps);
  }

  lemma ScaledStep(n: real, sx: real, sy: real, sxy: real, q: Point, n': real, sx': real, sy': real, sxy': real)
    requires n' == n + 1.0 && sx' == sx + q.x && sy' == sy + q.y && sxy' == sxy + q.x * q.y
    ensures Scaled(n', sx', sy', sxy') == Scaled(n, sx, sy, sxy) + Spread(n, sx, sy, sxy, q)
  {
  }

  lemma {:induction false} NumeratorStep(ps: seq<Point>, q: Point)
    ensures Numerator(ps + [q]) == Numerator(ps) + Pairs(ps, q)
  {
    var all := ps + [q];
    SumsSnoc(ps, q);
    PairsExpand(ps, q);
    ScaledStep(|ps| as real, SumX(ps), SumY(ps), SumXY(ps), q, |all| as real, SumX(all), SumY(all), SumXY(all));
  }

  lemma MulPositive(u: real, v: real)
    ensures u > 0.0 && v > 0.0 ==> Mul(u, v) > 0.0
    ensures u >= 0.0 && v >= 0.0 ==> Mul(u, v) >= 0.0
  {
  }

  // Two points in the same order along both axes have a non-negative product.
  lemma AscendingProduct(p: Point, q: Point)
    requires p.x <= q.x && p.y <= q.y
    ensures Product(p, q) >= 0.0
  {
  }

  lemma DiagonalProduct(p: Point, q: Point)
    requires p.x == p.y && q.x == q.y
    ensures Product(p, q) >= 0.0 && (p.x != q.x ==> Product(p, q) > 0.0)
  {
    SameCoordinates(p.x, q.x);
    assert p == Point(p.x, p.x) && q == Point(q.x, q.x);
  }

  lemma SameCoordinates(u: real, v: real)
    ensures var r := Product(Point(u, u), Point(v, v));
            r >= 0.0 && (u != v ==> r > 0.0)
  {
    ProductIsSquare(u, v);
    SquareSign(v - u);
  }

  lemma ProductIsSquare(u: real, v: real)
    ensures Product(Point(u, u), Point(v, v)) == Square(v - u)
  {
  }

  lemma SquareSign(r: real)
    ensures Square(r) >= 0.0 && (r != 0.0 ==> Square(r) > 0.0)
  {
    SquareOfNegative(r);
    MulPositive(r, r);
    MulPositive(-r, -r);
  }

  lemma SquareOfNegative(r: real)
    ensures Square(-r) == Square(r)
  {
  }

  // A sum of non-negative products is non-negative and at least each of them.
  lemma {:induction false} PairsNonNegative(ps: seq<Point>, q: Point)
    requires forall p :: p in ps ==> Product(p, q) >= 0.0
    ensures Pairs(ps, q) >= 0.0
    ensures forall p :: p in ps ==> Pairs(ps, q) >= Product(p, q)
  {
    if ps != [] {
      var s, p := ps[..|ps| - 1], ps[|ps| - 1];
      assert ps == s + [p];
      PairsSnoc(s, p, q);
      PairsNonNegative(s, q);
    }
  }

  // ----- Chebyshev: sizes that never shrink have a growth rate that is not negative -----

  ghost predicate Ascending(ps: seq<Point>)
  {
    forall i, j :: 0 <= i < j < |ps| ==> ps[i].x <= ps[j].x && ps[i].y <= ps[j].y
  }

  lemma {:induction false} AscendingNumerator(ps: seq<Point>)
    requires Ascending(ps)
    ensures Numerator(ps) >= 0.0
  {
    if ps != [] {
      var init, q := ps[..|ps| - 1], ps[|ps| - 1];
      AscendingNumerator(init);
      forall p | p in init
        ensures Product(p, q) >= 0.0
      {
        AscendingProduct(p, q);
      }
      PairsNonNegative(init, q);
      NumeratorStep(init, q);
      assert ps == init + [q];
    }
  }

  // ----- The denominator is positive -----

  ghost predicate OnDiagonal(ds: seq<Point>)
  {
    forall p :: p in ds ==> p.x == p.y
  }

  lemma {:induction false} DiagonalNumerator(ds: seq<Point>)
    requires OnDiagonal(ds)
    ensures Numerator(ds) >= 0.0
    ensures forall p, p' :: p in ds && p' in ds && p.x != p'.x ==> Numerator(ds) > 0.0
  {
    if ds != [] {
      var init, q := ds[..|ds| - 1], ds[|ds| - 1];
      assert ds == init + [q];
      DiagonalNumerator(init);
      forall p | p in init
        ensures Product(p, q) >= 0.0 && (p.x != q.x ==> Product(p, q) > 0.0)
      {
        DiagonalProduct(p, q);
      }
      PairsNonNegative(init, q);
      NumeratorStep(init, q);
    }
  }

  // The denominator is the numerator of the points (x, x).
  function Diagonal(ps: seq<Point>): (ds: seq<Point>)
    ensures |ds| == |ps|
    ensures forall i :: 0 <= i < |ps| ==> ds[i] == Point(ps[i].x, ps[i].x)
  {
    seq(|ps|, i requires 0 <= i < |ps| => Point(ps[i].x, ps[i].x))
  }

  lemma DiagonalSnoc(s: seq<Point>, p: Point)
    ensures Diagonal(s + [p]) == Diagonal(s) + [Point(p.x, p.x)]
  {
  }

  lemma {:induction false} DiagonalSums(ps: seq<Point>)
    ensures SumX(Diagonal(ps)) == SumX(ps) && SumY(Diagonal(ps)) == SumX(ps) && SumXY(Diagonal(ps)) == SumXX(ps)
  {
    if ps == [] {
      assert Diagonal(ps) == [];
    } else {
      var s, p := ps[..|ps| - 1], ps[|ps| - 1];
      DiagonalSums(s);
      SumsSnoc(s, p);
      SumsSnoc(Diagonal(s), Point(p.x, p.x));
      DiagonalSnoc(s, p);
      assert ps == s + [p];
    }
  }

  lemma DenominatorPositive(ps: seq<Point>, i: nat, j: nat)
    requires i < |ps| && j < |ps| && ps[i].x != ps[j].x
    ensures Denominator(ps) > 0.0
  {
    var ds := Diagonal(ps);
    assert ds[i] in ds && ds[j] in ds;
    DiagonalNumerator(ds);
    DiagonalSums(ps);
  }

  // ----- Least squares -----

  // Sum of the residuals of the line y = a + b x, and of the residuals times x.
  function Residuals(ps: seq<Point>, a: real, b: real): real
  {
    if ps == [] then 0.0 else Residuals(ps[..|ps| - 1], a, b) + Residual(ps[|ps| - 1], a, b)
  }

  function Moments(ps: seq<Point>, a: real, b: real): real
  {
    if ps == [] then 0.0 else Moments(ps[..|ps| - 1], a, b) + ps[|ps| - 1].x * Residual(ps[|ps| - 1], a, b)
  }

  // The squared distance between two lines at the sampled times.
  function Gap(ps: seq<Point>, da: real, db: real): real
  {
    if ps == [] then 0.0 else Gap(ps[..|ps| - 1], da, db) + Square(da + db * ps[|ps| - 1].x)
  }

  lemma ErrorSnoc(s: seq<Point>, p: Point, a: real, b: real)
    ensures Error(s + [p], a, b) == Error(s, a, b) + Square(Residual(p, a, b))
  {
  }

  lemma ResidualsSnoc(s: seq<Point>, p: Point, a: real, b: real)
    ensures Residuals(s + [p], a, b) == Residuals(s, a, b) + Residual(p, a, b)
  {
  }

  lemma MomentsSnoc(s: seq<Point>, p: Point, a: real, b: real)
    ensures Moments(s + [p], a, b) == Moments(s, a, b) + p.x * Residual(p, a, b)
  {
  }

  lemma GapSnoc(s: seq<Point>, p: Point, da: real, db: real)
    ensures Gap(s + [p], da, db) == Gap(s, da, db) + Square(da + db * p.x)
  {
    assert (s + [p])[..|s|] == s;
  }

  lemma GapNonNegative(ps: seq<Point>, da: real, db: real)
    ensures Gap(ps, da, db) >= 0.0
  {
    var P := s => Gap(s, da, db) >= 0.0;
    forall s, p | P(s)
      ensures P(s + [p])
    {
      GapSnoc(s, p, da, db);
      SquareSign(da + db * p.x);
    }
    SnocInduction(P, ps);
  }

  // The squared error of a shifted line, from the sums of the unshifted one.
  function Shifted(error: real, residuals: real, moments: real, gap: real, da: real, db: real): real
  {
    error - 2.0 * (da * residuals) - 2.0 * (db * moments) + gap
  }

  lemma ShiftedAdds(e: real, r: real, m: real, g: real, e1: real, r1: real, m1: real, g1: real, da: real, db: real,
                    e': real, r': real, m': real, g': real)
    requires e' == e + e1 && r' == r + r1 && m' == m + m1 && g' == g + g1
    ensures Shifted(e', r', m', g', da, db) == Shifted(e, r, m, g, da, db) + Shifted(e1, r1, m1, g1, da, db)
  {
  }

  lemma PointError(p: Point, a: real, b: real, da: real, db: real)
    ensures Square(Residual(p, a + da, b + db)) ==
            Shifted(Square(Residual(p, a, b)), Residual(p, a, b), p.x * Residual(p, a, b), Square(da + db * p.x), da, db)
  {
  }

  lemma ErrorExpands(ps: seq<Point>, a: real, b: real, da: real, db: real)
    ensures Error(ps, a + da, b + db) ==
            Shifted(Error(ps, a, b), Residuals(ps, a, b), Moments(ps, a, b), Gap(ps, da, db), da, db)
  {
    var P := s => Error(s, a + da, b + db) ==
      Shifted(Error(s, a, b), Residuals(s, a, b), Moments(s, a, b), Gap(s, da, db), da, db);
    forall s, p | P(s)
      ensures P(s + [p])
    {
      var s' := s + [p];
      ErrorSnoc(s, p, a, b);
      ErrorSnoc(s, p, a + da, b + db);
      ResidualsSnoc(s, p, a, b);
      MomentsSnoc(s, p, a, b);
      GapSnoc(s, p, da, db);
      PointError(p, a, b, da, db);
      ShiftedAdds(Error(s, a, b), Residuals(s, a, b), Moments(s, a, b), Gap(s, da, db),
                  Square(Residual(p, a, b)), Residual(p, a, b), p.x * Residual(p, a, b), Square(da + db * p.x), da, db,
                  Error(s', a, b), Residuals(s', a, b), Moments(s', a, b), Gap(s', da, db));
    }
    SnocInduction(P, ps);
  }

  function Normal(n: real, sx: real, sy: real, a: real, b: real): real
  {
    sy - a * n - b * sx
  }

  lemma ResidualStep(n: real, sx: real, sy: real, a: real, b: real, p: Point, n': real, sx': real, sy': real)
    requires n' == n + 1.0 && sx' == sx + p.x && sy' == sy + p.y
    ensures Normal(n', sx', sy', a, b) == Normal(n, sx, sy, a, b) + Residual(p, a, b)
  {
  }

  lemma MomentStep(sx: real, sxx: real, sxy: real, a: real, b: real, p: Point, sx': real, sxx': real, sxy': real)
    requires sx' == sx + p.x && sxx' == sxx + p.x * p.x && sxy' == sxy + p.x * p.y
    ensures Normal(sx', sxx', sxy', a, b) == Normal(sx, sxx, sxy, a, b) + p.x * Residual(p, a, b)
  {
  }

  lemma {:induction false} ResidualSum(ps: seq<Point>, a: real, b: real)
    ensures Residuals(ps, a, b) == Normal(|ps| as real, SumX(ps), SumY(ps), a, b)
  {
    var P := s => Residuals(s, a, b) == Normal(|s| as real, SumX(s), SumY(s), a, b);
    forall s, p | P(s)
      ensures P(s + [p])
    {
      var s' := s + [p];
      SumsSnoc(s, p);
      ResidualsSnoc(s, p, a, b);
      ResidualStep(|s| as real, SumX(s), SumY(s), a, b, p, |s'| as real, SumX(s'), SumY(s'));
    }
    SnocInduction(P, ps);
  }

  lemma MomentSum(ps: seq<Point>, a: real, b: real)
    ensures Moments(ps, a, b) == Normal(SumX(ps), SumXX(ps), SumXY(ps), a, b)
  {
    var P := s => Moments(s, a, b) == Normal(SumX(s), SumXX(s), SumXY(s), a, b);
    forall s, p | P(s)
      ensures P(s + [p])
    {
      var s' := s + [p];
      SumsSnoc(s, p);
      MomentsSnoc(s, p, a, b);
      MomentStep(SumX(s), SumXX(s), SumXY(s), a, b, p, SumX(s'), SumXX(s'), SumXY(s'));
    }
    SnocInduction(P, ps);
  }

  lemma NormalEquations(n: real, sx: real, sy: real, sxy: real, sxx: real, a: real, b: real)
    requires n > 0.0 && Scaled(n, sx, sx, sxx) != 0.0
    requires b == Scaled(n, sx, sy, sxy) / Scaled(n, sx, sx, sxx)
    requires a == (sy - b * sx) / n
    ensures Normal(n, sx, sy, a, b) == 0.0
    ensures Normal(sx, sxx, sxy, a, b) == 0.0
  {
  }

  lemma FitHasNoResidual(ps: seq<Point>)
    requires ps != [] && Denominator(ps) != 0.0
    ensures var b := Slope(ps);
            var a := Intercept(ps, b);
            Residuals(ps, a, b) == 0.0 && Moments(ps, a, b) == 0.0
  {
    var b := Slope(ps);
    var a := Intercept(ps, b);
    NormalEquations(|ps| as real, SumX(ps), SumY(ps), SumXY(ps), SumXX(ps), a, b);
    ResidualSum(ps, a, b);
    MomentSum(ps, a, b);
  }

  // Any other line's squared error exceeds the fitted line's by exactly their squared
  // distance at the samples.
  lemma FitIsOptimal(ps: seq<Point>, a: real, b: real)
    requires ps != [] && Denominator(ps) != 0.0
    ensures var slope := Slope(ps);
            var intercept := Intercept(ps, slope);
            && Error(ps, a, b) == Error(ps, intercept, slope) + Gap(ps, a - intercept, b - slope)
            && Gap(ps, a - intercept, b - slope) >= 0.0
  {
    var slope := Slope(ps);
    var intercept := Intercept(ps, slope);
    FitHasNoResidual(ps);
    ErrorExpands(ps, intercept, slope, a - intercept, b - slope);
    GapNonNegative(ps, a - intercept, b - slope);
    assert intercept + (a - intercept) == a && slope + (b - slope) == b;
  }

  lemma {:induction false} CollinearResiduals(ps: seq<Point>, a: real, b: real)
    requires forall p :: p in ps ==> Residual(p, a, b) == 0.0
    ensures Residuals(ps, a, b) == 0.0 && Moments(ps, a, b) == 0.0
  {
    var P := (s: seq<Point>) => (forall p :: p in s ==> Residual(p, a, b) == 0.0) ==>
      Residuals(s, a, b) == 0.0 && Moments(s, a, b) == 0.0;
    forall s, p | P(s)
      ensures P(s + [p])
    {
      ResidualsSnoc(s, p, a, b);
      MomentsSnoc(s, p, a, b);
      if forall p' :: p' in s + [p] ==> Residual(p', a, b) == 0.0 {
        assert p in s + [p];
        assert forall p' :: p' in s ==> p' in s + [p];
      }
    }
    SnocInduction(P, ps);
  }

  lemma SlopeOfNormal(n: real, sx: real, sy: real, sxy: real, sxx: real, a: real, b: real)
    requires Normal(n, sx, sy, a, b) == 0.0 && Normal(sx, sxx, sxy, a, b) == 0.0
    requires Scaled(n, sx, sx, sxx) != 0.0
    ensures Scaled(n, sx, sy, sxy) / Scaled(n, sx, sx, sxx) == b
  {
  }

  // On points of one line the fit returns that line's slope.
  lemma CollinearIsExact(ps: seq<Point>, a: real, b: real)
    requires Denominator(ps) != 0.0
    requires forall p :: p in ps ==> Residual(p, a, b) == 0.0
    ensures Slope(ps) == b
  {
    CollinearResiduals(ps, a, b);
    ResidualSum(ps, a, b);
    MomentSum(ps, a, b);
    SlopeOfNormal(|ps| as real, SumX(ps), SumY(ps), SumXY(ps), SumXX(ps), a, b);
  }

  // ----- The code -----

  ghost predicate NeverShrinks(samples: seq<Sample>)
  {
    forall i, j :: 0 <= i < j < |samples| ==>
      samples[i].capturedAt <= samples[j].capturedAt && samples[i].clusterBytes <= samples[j].clusterBytes
  }

  function Span(samples: seq<Sample>): int
    requires samples != []
  {
    samples[|samples| - 1].capturedAt - samples[0].capturedAt
  }

  predicate LongEnough(samples: seq<Sample>)
  {
    |samples| >= 2 && Span(samples) >= MIN_SIZE_TREND_SPAN
  }

  lemma PointsSpread(samples: seq<Sample>)
    requires LongEnough(samples)
    ensures Denominator(Points(samples[0].capturedAt, samples)) > 0.0
  {
    var ps := Points(samples[0].capturedAt, samples);
    assert ps[0].x == 0.0;
    assert ps[|ps| - 1].x >= 1.0;
    DenominatorPositive(ps, 0, |ps| - 1);
  }

  // A trend is returned exactly when the history is long enough: the zero-denominator
  // exit is never taken. Its growth rate is the least-squares slope.
  method FitSizeTrend(samples: seq<Sample>) returns (trend: Option<Trend>)
    ensures trend.Some? <==> LongEnough(samples)
    ensures trend.Some? ==>
              var ps := Points(samples[0].capturedAt, samples);
              && Denominator(ps) > 0.0
              && trend.value == Trend(samples[|samples| - 1].clusterBytes, Slope(ps), Span(samples), |samples|)
  {
    if |samples| < 2 {
      return None;
    }
    var first, last := samples[0].capturedAt, samples[|samples| - 1].capturedAt;
    var span := last - first;
    if span < MIN_SIZE_TREND_SPAN {
      return None;
    }

    ghost var ps := Points(first, samples);
    PointsSpread(samples);
    var sumX, sumY, sumXY, sumXX := Accumulate(first, samples);
    var denom := |samples| as real * sumXX - sumX * sumX;
    assert denom == Denominator(ps);
    if denom == 0.0 {
      return None;
    }
    return Some(Trend(samples[|samples| - 1].clusterBytes,
                      (|samples| as real * sumXY - sumX * sumY) / denom, span, |samples|));
  }

  method Accumulate(first: int, samples: seq<Sample>) returns (sumX: real, sumY: real, sumXY: real, sumXX: real)
    ensures var ps := Points(first, samples);
            sumX == SumX(ps) && sumY == SumY(ps) && sumXY == SumXY(ps) && sumXX == SumXX(ps)
  {
    ghost var ps := Points(first, samples);
    sumX, sumY, sumXY, sumXX := 0.0, 0.0, 0.0, 0.0;
    for i := 0 to |samples|
      invariant sumX == SumX(ps[..i]) && sumY == SumY(ps[..i])
      invariant sumXY == SumXY(ps[..i]) && sumXX == SumXX(ps[..i])
    {
      var x := (samples[i].capturedAt - first) as real / NS_PER_DAY as real;
      var y := samples[i].clusterBytes as real;
      assert ps[..i + 1] == ps[..i] + [Point(x, y)];
      SumsSnoc(ps[..i], Point(x, y));
      sumX := sumX + x;
      sumY := sumY + y;
      sumXY := sumXY + x * y;
      sumXX := sumXX + x * x;
    }
    assert ps[..|samples|] == ps;
  }

  // What the growth rate of a long enough history promises, whatever its samples: no line
  // fits them better, samples on a line give that line's slope, and sizes that never
  // shrink over time never give a negative rate.
  lemma GrowthRate(samples: seq<Sample>, a: real, b: real)
    requires LongEnough(samples)
    ensures var ps := Points(samples[0].capturedAt, samples);
            && Denominator(ps) > 0.0
            && Error(ps, Intercept(ps, Slope(ps)), Slope(ps)) <= Error(ps, a, b)
            && ((forall p :: p in ps ==> Residual(p, a, b) == 0.0) ==> Slope(ps) == b)
            && (NeverShrinks(samples) ==> Slope(ps) >= 0.0)
  {
    var ps := Points(samples[0].capturedAt, samples);
    PointsSpread(samples);
    FitIsOptimal(ps, a, b);
    if forall p :: p in ps ==> Residual(p, a, b) == 0.0 {
      CollinearIsExact(ps, a, b);
    }
    if NeverShrinks(samples) {
      PointsAscend(samples);
      AscendingNumerator(ps);
      QuotientNonNegative(Numerator(ps), Denominator(ps));
    }
  }

  // The units: a history is long enough from 24 hours on, and the rate is in bytes a day.
  lemma LongEnoughMeans(samples: seq<Sample>)
    ensures LongEnough(samples) <==>
      |samples| >= 2 && samples[|samples| - 1].capturedAt - samples[0].capturedAt >= 24 * 3_600_000_000_000
  {
  }

  lemma TwoSamplesRate(first: Sample, last: Sample, days: int)
    requires days > 0 && last.capturedAt == first.capturedAt + days * 24 * 3_600_000_000_000
    ensures var ps := Points(first.capturedAt, [first, last]);
            Denominator(ps) > 0.0 && Slope(ps) == (last.clusterBytes - first.clusterBytes) as real / days as real
  {
    var samples := [first, last];
    assert samples[0] == first && samples[1] == last;
    PointsSpread(samples);
    DaysApart(days);
    TwoPoints(Points(first.capturedAt, samples), first.clusterBytes, last.clusterBytes, days);
  }

  lemma TwoPoints(ps: seq<Point>, from: int, to: int, days: int)
    requires days > 0 && |ps| == 2 && Denominator(ps) > 0.0
    requires ps[0] == Point(0.0, from as real) && ps[1] == Point(days as real, to as real)
    ensures Slope(ps) == (to - from) as real / days as real
  {
    var rate := (to - from) as real / days as real;
    OnLine(from as real, to as real, days as real, rate);
    assert forall p :: p in ps ==> p == ps[0] || p == ps[1];
    CollinearIsExact(ps, from as real, rate);
  }

  lemma OnLine(from: real, to: real, days: real, rate: real)
    requires days > 0.0 && rate == (to - from) / days
    ensures Residual(Point(0.0, from), from, rate) == 0.0 && Residual(Point(days, to), from, rate) == 0.0
  {
  }

  lemma DaysApart(days: int)
    ensures Days(days * 24 * 3_600_000_000_000) == days as real
  {
  }

  lemma QuotientNonNegative(num: real, den: real)
    requires num >= 0.0 && den > 0.0
    ensures num / den >= 0.0
  {
  }

  lemma PointsAscend(samples: seq<Sample>)
    requires samples != [] && NeverShrinks(samples)
    ensures Ascending(Points(samples[0].capturedAt, samples))
  {
  }
}
