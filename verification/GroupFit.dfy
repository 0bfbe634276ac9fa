/** What the externality read reports about its groups: correlations and the slope fitted to the groups that inflict. */
module GroupFit {
  import opened CommitGroups
  import opened MannWhitney
  import opened Reals
  import opened Spearman
  import opened Sums
  import opened Waiting
  import opened Wrappers

  /** (predicted, realized) of one group */
  type Point = (real, real)

  /** The groups that inflicted anything. */
  function Inflicting(points: seq<Point>): (r: seq<Point>)
    ensures forall x | x in r :: x in points && x.1 > 0.0
    ensures forall x | x in points && x.1 > 0.0 :: x in r
  {
    if points == [] then []
    else
      var front, last := points[..|points| - 1], points[|points| - 1];
      assert points == front + [last];
      Inflicting(front) + if last.1 > 0.0 then [last] else []
  }

  function Points(predicted: seq<real>, realized: seq<real>): (r: seq<Point>)
    requires |predicted| == |realized|
    ensures |r| == |predicted|
  {
    seq(|predicted|, i requires 0 <= i < |predicted| => (predicted[i], realized[i]))
  }

  function Firsts(points: seq<Point>): (r: seq<real>)
    ensures |r| == |points|
  {
    seq(|points|, i requires 0 <= i < |points| => points[i].0)
  }

  function Seconds(points: seq<Point>): (r: seq<real>)
    ensures |r| == |points|
  {
    seq(|points|, i requires 0 <= i < |points| => points[i].1)
  }

  lemma {:induction false} InflictingOrZero(points: seq<Point>)
    ensures |Inflicting(points)| + ZeroCount(Seconds(points)) == |points|
  {
    if points != [] {
      var n := |points| - 1;
      InflictingOrZero(points[..n]);
      assert Seconds(points)[..n] == Seconds(points[..n]);
    }
  }

  lemma SecondsOfPoints(predicted: seq<real>, realized: seq<real>)
    requires |predicted| == |realized|
    ensures Seconds(Points(predicted, realized)) == realized
  {
  }

  // ----- the slope -----

  function Product(): Point -> real {
    (x: Point) => Times(x.0, x.1)
  }

  function Square(): Point -> real {
    (x: Point) => Times(x.0, x.0)
  }

  /** The squared distance of a point from the line of this slope through the origin. */
  function Miss(slope: real): Point -> real {
    (x: Point) => Times(x.1 - Times(slope, x.0), x.1 - Times(slope, x.0))
  }

  /** What a point misses the steeper line by less. */
  function Lean(slope: real, d: real): Point -> real {
    (x: Point) => Times(-2.0 * d, Product()(x)) + Times(2.0 * slope * d + d * d, Square()(x))
  }

  lemma LineAlgebra(p: real, r: real, slope: real, d: real)
    ensures var e := r - slope * p;
      (e - d * p) * (e - d * p) == e * e + (-2.0 * d) * (p * r) + (2.0 * slope * d + d * d) * (p * p)
  {
    var e, q := r - slope * p, d * p;
    assert (e - q) * (e - q) == e * e - 2.0 * (q * e) + q * q;
    assert q * e == q * r - q * (slope * p);
    assert q * r == d * (p * r);
    assert q * (slope * p) == (slope * d) * (p * p);
    assert q * q == (d * d) * (p * p);
    assert (2.0 * slope * d + d * d) * (p * p) == 2.0 * ((slope * d) * (p * p)) + (d * d) * (p * p);
  }

  lemma MissLeans(slope: real, d: real, x: Point)
    ensures Miss(slope + d)(x) == Miss(slope)(x) + Lean(slope, d)(x)
  {
    LineAlgebra(x.0, x.1, slope, d);
    var e, e' := x.1 - slope * x.0, x.1 - (slope + d) * x.0;
    assert (slope + d) * x.0 == slope * x.0 + d * x.0;
    assert e' == e - d * x.0;
    assert Miss(slope + d)(x) == e' * e' == (e - d * x.0) * (e - d * x.0);
    assert Miss(slope)(x) == e * e;
    var product, square := x.0 * x.1, x.0 * x.0;
    assert Product()(x) == product && Square()(x) == square;
    var a, b := -2.0 * d, 2.0 * slope * d + d * d;
    assert Lean(slope, d)(x) == Times(a, product) + Times(b, square);
    assert Times(a, product) == a * product && Times(b, square) == b * square;
  }

  function ScaledBy(a: real, f: Point -> real): Point -> real {
    (x: Point) => Times(a, f(x))
  }

  /** The distance of all points grows with the square of the difference in slope from the fitted line. */
  lemma MissOfOther(points: seq<Point>, slope: real, other: real)
    requires Times(slope, Sum(points, Square())) == Sum(points, Product())
    ensures Sum(points, Miss(other))
         == Sum(points, Miss(slope)) + Times(Times(other - slope, other - slope), Sum(points, Square()))
  {
    var d := other - slope;
    var a, b := -2.0 * d, 2.0 * slope * d + d * d;
    var squares, products := Sum(points, Square()), Sum(points, Product());
    assert slope + d == other;
    forall x
      ensures Miss(other)(x) == Miss(slope)(x) + Lean(slope, d)(x)
    {
      MissLeans(slope, d, x);
    }
    SumPlus(points, Miss(other), Miss(slope), Lean(slope, d));
    SumPlus(points, Lean(slope, d), ScaledBy(a, Product()), ScaledBy(b, Square()));
    SumScale(points, ScaledBy(a, Product()), a, Product());
    SumScale(points, ScaledBy(b, Square()), b, Square());
    LeanOfFit(slope, d, squares, products);
  }

  lemma LeanOfFit(slope: real, d: real, squares: real, products: real)
    requires Times(slope, squares) == products
    ensures Times(-2.0 * d, products) + Times(2.0 * slope * d + d * d, squares) == Times(Times(d, d), squares)
  {
    assert products == slope * squares;
    assert -2.0 * d * (slope * squares) == -(2.0 * slope * d * squares);
    assert (2.0 * slope * d + d * d) * squares == 2.0 * slope * d * squares + (d * d) * squares;
  }

  lemma SquaresSign(points: seq<Point>)
    ensures Sum(points, Square()) >= 0.0
    ensures Sum(points, Square()) == 0.0 <==> forall x | x in points :: x.0 == 0.0
  {
    forall x: Point
      ensures Square()(x) >= 0.0 && (Square()(x) == 0.0 <==> x.0 == 0.0)
    {
      SquareSign(x.0);
    }
    SumNonNegative(points, Square());
  }

  lemma SquareSign(p: real)
    ensures Times(p, p) >= 0.0 && (Times(p, p) == 0.0 <==> p == 0.0)
  {
    var size := if p < 0.0 then -p else p;
    assert p * p == size * size;
    if p != 0.0 {
      PositiveTimes(size, size);
    }
  }

  /** No other line through the origin is nearer to the points. */
  lemma FitIsNearest(points: seq<Point>, slope: real, other: real)
    requires Times(slope, Sum(points, Square())) == Sum(points, Product())
    ensures Sum(points, Miss(slope)) <= Sum(points, Miss(other))
  {
    MissOfOther(points, slope, other);
    SquaresSign(points);
    SquareSign(other - slope);
    NonNegativeTimes(Times(other - slope, other - slope), Sum(points, Square()));
  }

  method Fit(points: seq<Point>) returns (slope: Option<real>)
    ensures slope.None? <==> forall x | x in points :: x.0 == 0.0
    ensures slope.Some? ==> forall other :: Sum(points, Miss(slope.value)) <= Sum(points, Miss(other))
  {
    var num, den := Sum(points, Product()), Sum(points, Square());
    SquaresSign(points);
    if den <= 0.0 {
      return None;
    }
    TimesQuotient(num, den);
    forall other
      ensures Sum(points, Miss(num / den)) <= Sum(points, Miss(other))
    {
      FitIsNearest(points, num / den, other);
    }
    return Some(num / den);
  }

  // ----- the report -----

  datatype Analysis = Analysis(batches: nat, inflicting: nat, zero: nat, rhoAll: Option<real>,
                               rhoInflicting: Option<real>, slope: Option<real>)

  /** The points of all groups with service, in some order. */
  ghost predicate ListsGroups(recs: seq<Record>, points: seq<Point>) {
    exists order: seq<GroupKey> ::
      && (forall i, j | 0 <= i < j < |order| :: order[i] != order[j])
      && (forall g :: g in order <==> g in BusyGroups(recs))
      && |points| == |order|
      && forall i | 0 <= i < |order| :: points[i] == (PredictedFor(recs)(order[i]), InflictedBy(recs)(order[i]))
  }

  /** The rank correlation of predicted and realized waiting, if there are three points and neither side is constant. */
  ghost predicate Correlates(rho: Option<real>, points: seq<Point>, root: real -> real) {
    && (rho.None? <==> |points| < 3 || AllTied(Firsts(points)) || AllTied(Seconds(points)))
    && (rho.Some? ==> rho.value == Rho(Correlate(Firsts(points), Seconds(points)), root) && -1.0 <= rho.value <= 1.0)
  }

  method CorrelatePoints(points: seq<Point>, root: real -> real) returns (rho: Option<real>)
    requires IsSqrt(root)
    ensures Correlates(rho, points, root)
  {
    rho := RankCorrelation(Firsts(points), Seconds(points), root);
  }

  method GroupPoints(recs: seq<Record>) returns (points: seq<Point>, nZero: nat)
    ensures ListsGroups(recs, points) && nZero == ZeroCount(Seconds(points))
  {
    var predicted, realized, order, zeros := GroupReadings(recs);
    hide PredictedFor, InflictedBy, BusyGroups, ZeroCount, Sum;
    points, nZero := Points(predicted, realized), zeros;
    SecondsOfPoints(predicted, realized);
  }

  method Analyse(recs: seq<Record>, root: real -> real) returns (a: Analysis, points: seq<Point>)
    requires IsSqrt(root)
    ensures ListsGroups(recs, points)
    ensures a.batches == |points| && a.inflicting == |Inflicting(points)| && a.zero + a.inflicting == a.batches
    ensures Correlates(a.rhoAll, points, root) && Correlates(a.rhoInflicting, Inflicting(points), root)
    ensures a.slope.None? <==> forall x | x in Inflicting(points) :: x.0 == 0.0
    ensures a.slope.Some? ==>
      forall other :: Sum(Inflicting(points), Miss(a.slope.value)) <= Sum(Inflicting(points), Miss(other))
  {
    var nZero;
    points, nZero := GroupPoints(recs);
    InflictingOrZero(points);
    hide Correlates, Miss, Inflicting, ListsGroups, ZeroCount;
    var some := Inflicting(points);
    var rhoAll := CorrelatePoints(points, root);
    var rhoInflicting := CorrelatePoints(some, root);
    var slope := Fit(some);
    a := Analysis(|points|, |some|, nZero, rhoAll, rhoInflicting, slope);
  }
}
