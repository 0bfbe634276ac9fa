/** Rank correlation: the cross sum of the ranks over the roots of their two sums of squares. */
module Spearman {
  import opened MannWhitney
  import opened RankVariance
  import opened Ranks
  import opened Reals
  import opened Sorting
  import opened Sums
  import opened Wrappers

  /** rho = cross / sqrt(squareA * squareB) */
  datatype Correlation = Correlation(cross: real, squareA: real, squareB: real) {
    /** |rho| <= 1, without the square root */
    ghost predicate AtMostOne() {
      squareA > 0.0 && squareB > 0.0 && cross * cross <= squareA * squareB
    }
  }

  function Dot(x: seq<real>, y: seq<real>): real
    requires |x| == |y|
  {
    if x == [] then 0.0 else Times(x[0], y[0]) + Dot(x[1..], y[1..])
  }

  /** The ranks of a sample, measured from the middle rank (n+1)/2. */
  function Centred(a: seq<real>): (r: seq<real>)
    ensures |r| == |a|
    ensures forall i | 0 <= i < |a| :: r[i] == Midrank(a, a[i]) - (|a| as real + 1.0) / 2.0
  {
    seq(|a|, i requires 0 <= i < |a| => Midrank(a, a[i]) - (|a| as real + 1.0) / 2.0)
  }

  // ----- the correlation is at most 1 -----

  lemma SquareNonNegative(x: real)
    ensures Times(x, x) >= 0.0
    ensures Times(x, x) == 0.0 <==> x == 0.0
  {
    if x > 0.0 {
      PositiveTimes(x, x);
    } else if x < 0.0 {
      PositiveTimes(-x, -x);
      TimesNegated(x, x);
    }
  }

  lemma TimesNegated(x: real, y: real)
    ensures Times(-x, y) == -Times(x, y) && Times(-x, -y) == Times(x, y)
  {
  }

  lemma {:induction false} DotPositive(x: seq<real>)
    ensures Dot(x, x) >= 0.0
    ensures Dot(x, x) == 0.0 ==> forall i | 0 <= i < |x| :: x[i] == 0.0
  {
    if x != [] {
      hide Times;
      SquareNonNegative(x[0]);
      DotPositive(x[1..]);
      assert forall i | 0 < i < |x| :: x[i] == x[1..][i - 1];
    }
  }

  lemma {:induction false} DotZero(x: seq<real>)
    requires forall i | 0 <= i < |x| :: x[i] == 0.0
    ensures Dot(x, x) == 0.0
  {
    if x != [] {
      DotZero(x[1..]);
    }
  }

  function Shifted(x: seq<real>, t: real, y: seq<real>): (r: seq<real>)
    requires |x| == |y|
    ensures |r| == |x| && forall i | 0 <= i < |x| :: r[i] == x[i] - Times(t, y[i])
  {
    seq(|x|, i requires 0 <= i < |x| => x[i] - Times(t, y[i]))
  }

  lemma ShiftedSquare(x: real, t: real, y: real)
    ensures Times(x - Times(t, y), x - Times(t, y))
         == Times(x, x) - Times(t, 2.0 * Times(x, y)) + Times(t, Times(t, Times(y, y)))
  {
    assert (x - t * y) * (x - t * y) == x * x - t * (2.0 * (x * y)) + t * (t * (y * y));
  }

  lemma {:induction false} ShiftedDot(x: seq<real>, t: real, y: seq<real>)
    requires |x| == |y|
    ensures Dot(Shifted(x, t, y), Shifted(x, t, y))
         == Dot(x, x) - Times(t, 2.0 * Dot(x, y)) + Times(t, Times(t, Dot(y, y)))
  {
    hide Times;
    Distribute(t, 0.0, 0.0);
    if x != [] {
      assert Shifted(x, t, y)[1..] == Shifted(x[1..], t, y[1..]);
      ShiftedDot(x[1..], t, y[1..]);
      ShiftedSquare(x[0], t, y[0]);
      Distribute(t, 2.0 * Times(x[0], y[0]), 2.0 * Dot(x[1..], y[1..]));
      Distribute(t, Times(y[0], y[0]), Dot(y[1..], y[1..]));
      Distribute(t, Times(t, Times(y[0], y[0])), Times(t, Dot(y[1..], y[1..])));
    }
  }

  /** Completing the square: if xx - 2t xy + t^2 yy >= 0 at t = xy / yy then xy^2 <= xx yy. */
  lemma Discriminant(xx: real, xy: real, yy: real)
    requires yy > 0.0
    requires xx - Times(xy / yy, 2.0 * xy) + Times(xy / yy, Times(xy / yy, yy)) >= 0.0
    ensures xy * xy <= xx * yy
  {
    var t := xy / yy;
    assert t * yy == xy;
    assert t * (t * yy) == t * xy;
    assert xx - t * xy >= 0.0;
    assert (xx - t * xy) * yy >= 0.0;
    assert (t * xy) * yy == xy * xy;
  }

  /** The squared correlation never exceeds 1. */
  lemma CauchySchwarz(x: seq<real>, y: seq<real>)
    requires |x| == |y| && Dot(y, y) > 0.0
    ensures Dot(x, x) > 0.0 ==> Correlation(Dot(x, y), Dot(x, x), Dot(y, y)).AtMostOne()
  {
    var xx, xy, yy := Dot(x, x), Dot(x, y), Dot(y, y);
    var t := xy / yy;
    assert xx - Times(t, 2.0 * xy) + Times(t, Times(t, yy)) >= 0.0 by {
      hide Times;
      ShiftedDot(x, t, y);
      DotPositive(Shifted(x, t, y));
    }
    Discriminant(xx, xy, yy);
  }

  // ----- when there is no reading -----

  lemma TiedMidrank(a: seq<real>, i: nat)
    requires i < |a| && AllTied(a)
    ensures Midrank(a, a[i]) == (|a| as real + 1.0) / 2.0
  {
    forall k | 0 <= k < |a|
      ensures a[k] == a[i]
    {
      assert a[k] in a && a[i] in a;
    }
    CountsAllTied(a, a[i]);
  }

  /** The sum of squares vanishes exactly when the sample is constant. */
  lemma SquareZeroIffTied(a: seq<real>)
    ensures Dot(Centred(a), Centred(a)) >= 0.0
    ensures Dot(Centred(a), Centred(a)) == 0.0 <==> AllTied(a)
  {
    hide Dot, Midrank;
    DotPositive(Centred(a));
    if AllTied(a) {
      forall i | 0 <= i < |a|
        ensures Centred(a)[i] == 0.0
      {
        TiedMidrank(a, i);
      }
      DotZero(Centred(a));
    } else {
      var x, y :| x in a && y in a && x != y;
      var i :| 0 <= i < |a| && a[i] == x;
      var j :| 0 <= j < |a| && a[j] == y;
      MidrankOrder(a, x, y);
      assert Centred(a)[i] != Centred(a)[j];
    }
  }

  // ----- what a change of scale does -----

  ghost predicate Increasing(f: real -> real) {
    forall x, y :: x < y ==> f(x) < f(y)
  }

  ghost predicate Decreasing(f: real -> real) {
    forall x, y :: x < y ==> f(y) < f(x)
  }

  lemma {:induction false} MidrankReversed(s: seq<real>, f: real -> real, v: real)
    requires Decreasing(f)
    ensures Below(Map(s, f), f(v)) == |s| - Below(s, v) - Tied(s, v)
    ensures Tied(Map(s, f), f(v)) == Tied(s, v)
  {
    if s != [] {
      assert Map(s, f)[1..] == Map(s[1..], f);
      MidrankReversed(s[1..], f, v);
    }
  }

  /** A strictly increasing change of scale leaves the centred ranks alone. */
  lemma CentredIncreasing(a: seq<real>, f: real -> real)
    requires Increasing(f)
    ensures Centred(Map(a, f)) == Centred(a)
  {
    forall i | 0 <= i < |a|
      ensures Centred(Map(a, f))[i] == Centred(a)[i]
    {
      MidrankRescaled(a, f, a[i]);
    }
  }

  /** A strictly decreasing one negates them. */
  lemma CentredDecreasing(a: seq<real>, f: real -> real)
    requires Decreasing(f)
    ensures forall i | 0 <= i < |a| :: Centred(Map(a, f))[i] == -Centred(a)[i]
  {
    forall i | 0 <= i < |a|
      ensures Centred(Map(a, f))[i] == -Centred(a)[i]
    {
      MidrankReversed(a, f, a[i]);
    }
  }

  lemma {:induction false} DotNegated(x: seq<real>, x': seq<real>, y: seq<real>)
    requires |x| == |x'| == |y|
    requires forall i | 0 <= i < |x| :: x'[i] == -x[i]
    ensures Dot(x', y) == -Dot(x, y) && Dot(x', x') == Dot(x, x)
  {
    hide Times;
    if x != [] {
      TimesNegated(x[0], y[0]);
      TimesNegated(x[0], x[0]);
      DotNegated(x[1..], x'[1..], y[1..]);
    }
  }

  function Correlate(a: seq<real>, b: seq<real>): Correlation
    requires |a| == |b|
  {
    Correlation(Dot(Centred(a), Centred(b)), Dot(Centred(a), Centred(a)), Dot(Centred(b), Centred(b)))
  }

  /** Reversing the order of one side flips the sign of the correlation and nothing else;
      an increasing change of scale does nothing at all. */
  lemma CorrelationUnderRescaling(a: seq<real>, b: seq<real>, f: real -> real)
    requires |a| == |b|
    ensures Increasing(f) ==> Correlate(Map(a, f), b) == Correlate(a, b)
    ensures Decreasing(f) ==> Correlate(Map(a, f), b) == Correlate(a, b).(cross := -Correlate(a, b).cross)
  {
    if Increasing(f) {
      CentredIncreasing(a, f);
    }
    if Decreasing(f) {
      CentredDecreasing(a, f);
      DotNegated(Centred(a), Centred(Map(a, f)), Centred(b));
    }
  }

  // ----- the quotient -----

  function Rho(c: Correlation, root: real -> real): real {
    var d := root(c.squareA) * root(c.squareB);
    if d == 0.0 then 0.0 else c.cross / d
  }

  lemma ProductOfRoots(x: real, y: real, p: real, q: real)
    requires p * p == x && q * q == y
    ensures (p * q) * (p * q) == x * y
  {
    assert (p * q) * (p * q) == (p * p) * (q * q);
  }

  lemma QuotientWithinOne(c: real, d: real)
    requires d > 0.0 && c * c <= d * d
    ensures -1.0 <= c / d <= 1.0
  {
    SquareOrder(if c < 0.0 then -c else c, d);
    assert c <= d && -d <= c;
    var q := c / d;
    assert q * d == c;
    if q > 1.0 {
      PositiveTimes(q - 1.0, d);
    } else if q < -1.0 {
      PositiveTimes(-1.0 - q, d);
    }
  }

  /** The correlation itself lies between -1 and 1. */
  lemma RhoRange(c: Correlation, root: real -> real)
    requires IsSqrt(root) && c.AtMostOne()
    ensures root(c.squareA) != 0.0 && root(c.squareB) != 0.0 && root(c.squareA) * root(c.squareB) != 0.0
    ensures -1.0 <= Rho(c, root) <= 1.0
  {
    var p, q := root(c.squareA), root(c.squareB);
    RootPositive(root, c.squareA);
    RootPositive(root, c.squareB);
    PositiveTimes(p, q);
    ProductOfRoots(c.squareA, c.squareB, p, q);
    QuotientWithinOne(c.cross, p * q);
  }

  /** Its square is cross^2 / (squareA * squareB), and its sign that of the cross sum. */
  lemma RhoSquared(c: Correlation, root: real -> real)
    requires IsSqrt(root) && c.AtMostOne()
    ensures var rho := Rho(c, root); Times(Times(rho, rho), Times(c.squareA, c.squareB)) == Times(c.cross, c.cross)
    ensures Rho(c, root) >= 0.0 <==> c.cross >= 0.0
  {
    var p, q := root(c.squareA), root(c.squareB);
    RootPositive(root, c.squareA);
    RootPositive(root, c.squareB);
    PositiveTimes(p, q);
    ProductOfRoots(c.squareA, c.squareB, p, q);
    SquareOfQuotient(c.cross, p * q, c.squareA * c.squareB);
  }

  lemma SquareOfQuotient(x: real, d: real, dd: real)
    requires d > 0.0 && d * d == dd
    ensures Times(Times(x / d, x / d), dd) == Times(x, x) && (x / d >= 0.0 <==> x >= 0.0)
  {
    var q := x / d;
    assert q * d == x;
    assert (q * q) * (d * d) == (q * d) * (q * d);
    if q >= 0.0 {
      NonNegativeTimes(q, d);
    } else {
      PositiveTimes(-q, d);
    }
  }

  // ----- what the sums mean -----

  lemma {:induction false} DotIsSum(a: seq<real>, s: seq<real>, x: seq<real>)
    requires |x| == |a| && forall i | 0 <= i < |a| :: x[i] == FromMiddle(s, a[i])
    ensures Dot(x, x) == Sum(a, SquareFromMiddle(s))
  {
    if a != [] {
      hide FromMiddle;
      DotIsSum(a[1..], s, x[1..]);
    }
  }

  /** A sum of squares is a twelfth of n^3 less the squares of the tied blocks, one for each value. */
  lemma SquareIsSpread(a: seq<real>)
    ensures 12.0 * Correlate(a, a).squareA == Sum(a, TieSlack(a))
  {
    DotIsSum(a, a, Centred(a));
    RanksSpread(a);
  }

  function Differences(x: seq<real>, y: seq<real>): (r: seq<real>)
    requires |x| == |y|
    ensures |r| == |x| && forall i | 0 <= i < |x| :: r[i] == x[i] - y[i]
  {
    seq(|x|, i requires 0 <= i < |x| => x[i] - y[i])
  }

  lemma SquareOfDifference(x: real, y: real)
    ensures Times(x - y, x - y) == Times(x, x) + Times(y, y) - 2.0 * Times(x, y)
  {
  }

  /** Twice the cross sum is both sums of squares less the squared rank differences. */
  lemma {:induction false} CrossByDifferences(x: seq<real>, y: seq<real>)
    requires |x| == |y|
    ensures 2.0 * Dot(x, y) == Dot(x, x) + Dot(y, y) - Dot(Differences(x, y), Differences(x, y))
  {
    if x != [] {
      hide Times;
      assert Differences(x, y)[1..] == Differences(x[1..], y[1..]);
      CrossByDifferences(x[1..], y[1..]);
      SquareOfDifference(x[0], y[0]);
    }
  }

  /** A sample that varies correlates with any increasing change of its scale at 1, with any decreasing one at -1. */
  lemma RescaledCorrelatesFully(a: seq<real>, f: real -> real, root: real -> real)
    requires IsSqrt(root) && !AllTied(a)
    ensures Rho(Correlate(a, a), root) == 1.0
    ensures Increasing(f) ==> Rho(Correlate(Map(a, f), a), root) == 1.0
    ensures Decreasing(f) ==> Rho(Correlate(Map(a, f), a), root) == -1.0
  {
    hide Dot, AllTied, Centred;
    SquareZeroIffTied(a);
    CorrelationUnderRescaling(a, a, f);
    var square := Correlate(a, a).squareA;
    RootPositive(root, square);
    var r := root(square);
    assert r * r == square;
    assert square / square == 1.0 && (-square) / square == -1.0;
  }

  // ----- the loops -----

  /** sum((x - mx) * (y - my) for x, y in zip(xs, ys)) */
  method CrossSum(xs: seq<real>, mx: real, ys: seq<real>, my: real, ghost cx: seq<real>, ghost cy: seq<real>)
      returns (total: real)
    requires |xs| == |ys| == |cx| == |cy|
    requires forall i | 0 <= i < |xs| :: cx[i] == xs[i] - mx && cy[i] == ys[i] - my
    ensures total == Dot(cx, cy)
  {
    hide Times;
    total := 0.0;
    for k := 0 to |xs|
      invariant total + Dot(cx[k..], cy[k..]) == Dot(cx, cy)
    {
      assert cx[k..][1..] == cx[k + 1..] && cy[k..][1..] == cy[k + 1..];
      total := total + Times(xs[k] - mx, ys[k] - my);
    }
  }

  /** The mean of the ranks, which is (n+1)/2 whatever the ties. */
  method MeanRank(xs: seq<real>, ranks: seq<real>) returns (mean: real)
    requires xs != [] && ranks == Map(xs, RankAmong(xs))
    ensures mean == (|xs| as real + 1.0) / 2.0
  {
    var total := 0.0;
    for k := 0 to |ranks|
      invariant total == Sum(xs[..k], RankAmong(xs))
    {
      assert xs[..k + 1] == xs[..k] + [xs[k]];
      SumSnoc(xs[..k], xs[k], RankAmong(xs));
      total := total + ranks[k];
    }
    assert xs[..|xs|] == xs;
    RanksTotal(xs);
    MeanOfTotal(|xs| as real, total);
    mean := total / |xs| as real;
  }

  lemma MeanOfTotal(n: real, total: real)
    requires n > 0.0 && total == n * (n + 1.0) / 2.0
    ensures total / n == (n + 1.0) / 2.0
  {
    var q := total / n;
    assert q * n == total;
    var gap := q - (n + 1.0) / 2.0;
    assert gap * n == 0.0;
    assert gap > 0.0 ==> gap * n > 0.0;
    assert gap < 0.0 ==> (-gap) * n > 0.0;
  }

  /** The sums over the ranks: none for unequal or short sides. */
  method RankSums(a: seq<real>, b: seq<real>) returns (r: Option<Correlation>)
    ensures r.None? <==> |a| != |b| || |a| < 3
    ensures r.Some? ==> r.value == Correlate(a, b)
  {
    hide Dot, Times, Midrank;
    var n := |a|;
    if n != |b| || n < 3 {
      return None;
    }
    var ra := Midranks(a);
    var rb := Midranks(b);
    assert ra == Map(a, RankAmong(a)) && rb == Map(b, RankAmong(b));
    var ma := MeanRank(a, ra);
    var mb := MeanRank(b, rb);
    var cross := CrossSum(ra, ma, rb, mb, Centred(a), Centred(b));
    var squareA := CrossSum(ra, ma, ra, ma, Centred(a), Centred(a));
    var squareB := CrossSum(rb, mb, rb, mb, Centred(b), Centred(b));
    return Some(Correlation(cross, squareA, squareB));
  }

  /** No reading exactly for unequal or short sides or a constant side; otherwise a correlation between -1 and 1. */
  method RankCorrelation(a: seq<real>, b: seq<real>, root: real -> real) returns (r: Option<real>)
    requires IsSqrt(root)
    ensures r.None? <==> |a| != |b| || |a| < 3 || AllTied(a) || AllTied(b)
    ensures r.Some? ==> r.value == Rho(Correlate(a, b), root) && -1.0 <= r.value <= 1.0
  {
    hide Dot, AllTied, Centred, IsSqrt, Correlation.AtMostOne;
    var sums := RankSums(a, b);
    if sums.None? {
      return None;
    }
    var c := sums.value;
    SquareZeroIffTied(a);
    SquareZeroIffTied(b);
    RootPositive(root, c.squareA);
    RootPositive(root, c.squareB);
    var da, db := root(c.squareA), root(c.squareB);
    if da == 0.0 || db == 0.0 {
      return None;
    }
    CauchySchwarz(Centred(a), Centred(b));
    RhoRange(c, root);
    return Some(c.cross / (da * db));
  }
}
