/** The rank-sum test of the gate read: U from midranks of the merged sample, with the tie-corrected variance. */
module MannWhitney {
  import opened RankVariance
  import opened Ranks
  import opened Reals
  import opened Sorting
  import opened Sums
  import opened Wrappers

  /** What the test hands to the normal approximation. */
  datatype Statistic = Statistic(u: real, mu: real, sigmaSq: real)

  // ----- the pair count that U stands for -----

  /** How many pairs (x in a, y in b) have x > y. */
  function Wins(a: seq<real>, b: seq<real>): nat {
    if a == [] then 0 else Below(b, a[0]) + Wins(a[1..], b)
  }

  /** How many pairs (x in a, y in b) have x == y. */
  function Draws(a: seq<real>, b: seq<real>): nat {
    if a == [] then 0 else Tied(b, a[0]) + Draws(a[1..], b)
  }

  function PairCount(a: seq<real>, b: seq<real>): real {
    Wins(a, b) as real + Draws(a, b) as real / 2.0
  }

  lemma {:induction false} PairCountIsBeats(a: seq<real>, b: seq<real>)
    ensures PairCount(a, b) == DoubleSum(a, b, Beat)
  {
    if a != [] {
      PairCountIsBeats(a[1..], b);
      MidrankIsBeats(b, a[0]);
    }
  }

  /** Swapping the samples turns U into the rest of the pairs; both lie between 0 and all pairs. */
  lemma PairCountSwap(a: seq<real>, b: seq<real>)
    ensures PairCount(a, b) + PairCount(b, a) == |a| as real * |b| as real
    ensures 0.0 <= PairCount(a, b) <= |a| as real * |b| as real
  {
    PairCountIsBeats(a, b);
    PairCountIsBeats(b, a);
    BeatComplement(a, b);
  }

  function Pairs(na: nat, nb: nat): real {
    na as real * nb as real
  }

  /** 1 + 2 + ... + n, the rank sum of a sample that loses every comparison. */
  function LeastRankSum(n: nat): real {
    n as real * (n as real + 1.0) / 2.0
  }

  /** The rank sum of a, less its least possible value, counts the pairs that a wins. */
  lemma RankSumIsPairCount(a: seq<real>, b: seq<real>, ra: real)
    requires ra == Sum(a, RankAmong(a + b))
    ensures ra - LeastRankSum(|a|) == PairCount(a, b)
    ensures Pairs(|a|, |b|) - PairCount(a, b) == PairCount(b, a)
  {
    RankSum(a, b);
    PairCountIsBeats(a, b);
    PairCountSwap(a, b);
  }

  // ----- the tie-corrected variance -----

  ghost predicate AllTied(s: seq<real>) {
    forall x, y | x in s && y in s :: x == y
  }

  function Excess(t: real): real {
    Square(t) - 1.0
  }

  /** t^2 - 1 for the size t of the tied block of x. */
  function TieExcess(s: seq<real>): real -> real {
    x => Excess(Tied(s, x) as real)
  }

  /** What a tied block of size t adds to the tie term. */
  function Cubes(t: real): real {
    t * t * t - t
  }

  function SigmaSq(na: nat, nb: nat, tieTerm: real): real
    requires na + nb >= 2
  {
    var n := (na + nb) as real;
    na as real * nb as real / 12.0 * ((n + 1.0) - tieTerm / (n * (n - 1.0)))
  }

  lemma {:induction false} TiedAtMost(s: seq<real>, v: real)
    ensures Tied(s, v) <= |s|
    ensures Tied(s, v) == |s| <==> forall k | 0 <= k < |s| :: s[k] == v
  {
    if s != [] {
      TiedAtMost(s[1..], v);
      if Tied(s, v) == |s| {
        assert forall k | 0 < k < |s| :: s[k] == s[1..][k - 1];
      }
    }
  }

  lemma SquareGap(n: real, t: real)
    requires 0.0 <= t <= n
    ensures Square(n) - Square(t) >= 0.0
    ensures Square(n) - Square(t) == 0.0 <==> t == n
  {
    assert n * n - t * t == (n - t) * (n + t);
    var gap, total := n - t, n + t;
    if t < n {
      assert gap > 0.0 && total > 0.0;
      assert gap * total > 0.0;
    }
  }

  /** An element's slack is zero exactly when every element equals it. */
  lemma SlackOf(s: seq<real>, x: real)
    ensures TieSlack(s)(x) >= 0.0
    ensures TieSlack(s)(x) == 0.0 <==> forall y | y in s :: y == x
  {
    TiedAtMost(s, x);
    SquareGap(|s| as real, Tied(s, x) as real);
    assert forall k | 0 <= k < |s| :: s[k] in s;
  }

  lemma SlackZeroIffTied(s: seq<real>)
    ensures Sum(s, TieSlack(s)) >= 0.0
    ensures Sum(s, TieSlack(s)) == 0.0 <==> AllTied(s)
  {
    forall x | x in s
      ensures TieSlack(s)(x) >= 0.0
      ensures TieSlack(s)(x) == 0.0 <==> forall y | y in s :: y == x
    {
      SlackOf(s, x);
    }
    SumNonNegative(s, TieSlack(s));
  }

  lemma CubesFactor(t: real)
    ensures t * Excess(t) == Cubes(t)
  {
  }

  lemma TieTermAndSlack(s: seq<real>)
    ensures Sum(s, TieExcess(s)) + Sum(s, TieSlack(s)) == Cubes(|s| as real)
  {
    hide Cubes, Square;
    var n := |s| as real;
    SumPlus(s, Constant(Excess(n)), TieExcess(s), TieSlack(s));
    SumConstant(s, Constant(Excess(n)), Excess(n));
    CubesFactor(n);
  }

  lemma QuotientOfDifference(d: real, c: real, x: real, y: real)
    requires d > 0.0 && x == d * c - y
    ensures c - x / d == y / d
  {
    var p, q := x / d, y / d;
    assert p * d == x && q * d == y;
    assert (p + q - c) * d == 0.0;
  }

  lemma ScaledSign(scale: real, d: real, slack: real)
    requires scale > 0.0 && d > 0.0 && slack >= 0.0
    ensures scale * (slack / d) >= 0.0
    ensures scale * (slack / d) == 0.0 <==> slack == 0.0
  {
    var q := slack / d;
    assert q * d == slack;
    if slack > 0.0 {
      assert q > 0.0;
      assert scale * q > 0.0;
    }
  }

  /** The variance with the tie term replaced by the slack it leaves. */
  lemma SigmaSqFromSlack(na: nat, nb: nat, tieTerm: real, slack: real)
    requires na >= 1 && nb >= 1 && slack >= 0.0
    requires tieTerm + slack == Cubes((na + nb) as real)
    ensures SigmaSq(na, nb, tieTerm) >= 0.0
    ensures SigmaSq(na, nb, tieTerm) == 0.0 <==> slack == 0.0
    ensures (na + nb) as real * ((na + nb) as real - 1.0) > 0.0
    ensures SigmaSq(na, nb, tieTerm)
         == na as real * nb as real / 12.0 * (slack / ((na + nb) as real * ((na + nb) as real - 1.0)))
  {
    var n := (na + nb) as real;
    var d := n * (n - 1.0);
    var scale := na as real * nb as real / 12.0;
    assert d > 0.0 && scale > 0.0;
    assert d * (n + 1.0) == Cubes(n);
    QuotientOfDifference(d, n + 1.0, tieTerm, slack);
    assert SigmaSq(na, nb, tieTerm) == scale * (slack / d);
    ScaledSign(scale, d, slack);
  }

  /** The variance is never negative, and vanishes exactly when every value of both samples is the same. */
  lemma SigmaSqSign(a: seq<real>, b: seq<real>)
    requires |a| >= 1 && |b| >= 1
    ensures SigmaSq(|a|, |b|, Sum(a + b, TieExcess(a + b))) >= 0.0
    ensures SigmaSq(|a|, |b|, Sum(a + b, TieExcess(a + b))) == 0.0 <==> AllTied(a + b)
  {
    hide SigmaSq, Cubes, TieExcess, TieSlack, AllTied, Sum;
    var s := a + b;
    SlackZeroIffTied(s);
    TieTermAndSlack(s);
    SigmaSqFromSlack(|a|, |b|, Sum(s, TieExcess(s)), Sum(s, TieSlack(s)));
  }

  lemma TwelfthOfTwelve(pairs: real, v: real, d: real)
    requires d > 0.0
    ensures pairs / 12.0 * (12.0 * v / d) == pairs / d * v
  {
    var q := v / d;
    assert q * d == v;
    assert 12.0 * v / d == 12.0 * q by {
      assert 12.0 * q * d == 12.0 * v;
    }
    assert pairs / d * v == pairs / d * (q * d) == pairs * q by {
      TimesQuotient(pairs, d);
    }
  }

  /** The variance is that of the rank sum of |a| ranks drawn from all of them without replacement. */
  lemma SigmaSqIsVariance(a: seq<real>, b: seq<real>)
    requires |a| >= 1 && |b| >= 1
    ensures var s := a + b; var n := |s| as real;
      && n * (n - 1.0) > 0.0
      && SigmaSq(|a|, |b|, Sum(s, TieExcess(s))) == Pairs(|a|, |b|) / (n * (n - 1.0)) * Sum(s, SquareFromMiddle(s))
  {
    hide SigmaSq, Cubes, TieExcess, TieSlack, AllTied, Sum, SquareFromMiddle;
    var s := a + b;
    var n := |s| as real;
    SlackZeroIffTied(s);
    TieTermAndSlack(s);
    RanksSpread(s);
    SigmaSqFromSlack(|a|, |b|, Sum(s, TieExcess(s)), Sum(s, TieSlack(s)));
    assert (|a| + |b|) as real == n;
    TwelfthOfTwelve(Pairs(|a|, |b|), Sum(s, SquareFromMiddle(s)), n * (n - 1.0));
  }

  // ----- the loop -----

  type Tagged = (real, int)

  function Tag(s: seq<real>, g: int): (r: seq<Tagged>)
    ensures |r| == |s|
  {
    if s == [] then [] else [(s[0], g)] + Tag(s[1..], g)
  }

  function ByValueThenGroup(): (Tagged, Tagged) -> bool {
    (p: Tagged, q: Tagged) => p.0 < q.0 || (p.0 == q.0 && p.1 <= q.1)
  }

  function Value(): Tagged -> real {
    (p: Tagged) => p.0
  }

  /** c holds both samples, tagged, in order of value. */
  ghost predicate Merges(c: seq<Tagged>, a: seq<real>, b: seq<real>) {
    && |c| == |a| + |b|
    && multiset(c) == multiset(Tag(a, 0) + Tag(b, 1))
    && forall i, j | 0 <= i < j < |c| :: c[i].0 <= c[j].0
  }

  function Combined(a: seq<real>, b: seq<real>): (r: seq<Tagged>)
    ensures Merges(r, a, b)
  {
    var r := Sort(Tag(a, 0) + Tag(b, 1), ByValueThenGroup());
    assert |r| == |multiset(r)|;
    assert forall i, j | 0 <= i < j < |r| :: ByValueThenGroup()(r[i], r[j]);
    r
  }

  lemma {:induction false} UntaggedValues(s: seq<real>, g: int)
    ensures Map(Tag(s, g), Value()) == s
  {
    if s != [] {
      UntaggedValues(s[1..], g);
      assert Map(Tag(s, g), Value()) == [s[0]] + Map(Tag(s[1..], g), Value());
    }
  }

  /** The merged, sorted values are a rearrangement of the two samples. */
  lemma MergedValues(c: seq<Tagged>, a: seq<real>, b: seq<real>)
    requires Merges(c, a, b)
    ensures multiset(Map(c, Value())) == multiset(a + b)
  {
    MapMultiset(c, Tag(a, 0) + Tag(b, 1), Value());
    UntaggedValues(a, 0);
    UntaggedValues(b, 1);
    hide Tag, Merges;
    var x, y := Tag(a, 0), Tag(b, 1);
    assert Map(x + y, Value()) == Map(x, Value()) + Map(y, Value());
  }

  /** Positions i to j of the merged order hold one tied block. */
  ghost predicate IsRun(c: seq<Tagged>, i: nat, j: nat) {
    && i <= j < |c|
    && (0 < i ==> c[i - 1].0 < c[i].0)
    && (forall k | i <= k <= j :: c[k].0 == c[i].0)
    && (j + 1 < |c| ==> c[j + 1].0 != c[i].0)
  }

  lemma TieRun(c: seq<Tagged>, a: seq<real>, b: seq<real>, i: nat, j: nat)
    requires Merges(c, a, b) && IsRun(c, i, j)
    ensures Midrank(a + b, c[i].0) == (i + j) as real / 2.0 + 1.0
    ensures Tied(a + b, c[i].0) == j - i + 1
  {
    var sorted := Map(c, Value());
    RunRank(sorted, i, j, sorted[i]);
    MergedValues(c, a, b);
    MidrankPermutation(sorted, a + b, sorted[i]);
  }

  /** The rank of a merged entry when it belongs to the first sample. */
  function RankOfFirst(s: seq<real>): Tagged -> real {
    (p: Tagged) => if p.1 == 0 then Midrank(s, p.0) else 0.0
  }

  function ExcessOf(s: seq<real>): Tagged -> real {
    (p: Tagged) => TieExcess(s)(p.0)
  }

  lemma {:induction false} TaggedSums(x: seq<real>, g: int, s: seq<real>)
    ensures Sum(Tag(x, g), RankOfFirst(s)) == if g == 0 then Sum(x, RankAmong(s)) else 0.0
    ensures Sum(Tag(x, g), ExcessOf(s)) == Sum(x, TieExcess(s))
  {
    if x != [] {
      TaggedSums(x[1..], g, s);
    }
  }

  /** The two running totals of the loops, over the merged order, in terms of the samples. */
  lemma MergedTotals(c: seq<Tagged>, a: seq<real>, b: seq<real>)
    requires Merges(c, a, b)
    ensures Sum(c, RankOfFirst(a + b)) == Sum(a, RankAmong(a + b))
    ensures Sum(c, ExcessOf(a + b)) == Sum(a + b, TieExcess(a + b))
  {
    var tagged := Tag(a, 0) + Tag(b, 1);
    SumPermutation(c, tagged, RankOfFirst(a + b));
    SumPermutation(c, tagged, ExcessOf(a + b));
    SumAppend(Tag(a, 0), Tag(b, 1), RankOfFirst(a + b));
    SumAppend(Tag(a, 0), Tag(b, 1), ExcessOf(a + b));
    SumAppend(a, b, TieExcess(a + b));
    TaggedSums(a, 0, a + b);
    TaggedSums(b, 1, a + b);
  }

  /** A tied block of t entries adds t (t^2 - 1) to the tie term. */
  lemma BlockExcess(block: seq<Tagged>, s: seq<real>)
    requires forall p | p in block :: Tied(s, p.0) == |block|
    ensures Sum(block, ExcessOf(s)) == Cubes(|block| as real)
  {
    hide Cubes, Excess;
    var t := |block| as real;
    CubesFactor(t);
    forall p | p in block
      ensures ExcessOf(s)(p) == Excess(t)
    {
      assert ExcessOf(s)(p) == TieExcess(s)(p.0);
    }
    SumConstant(block, ExcessOf(s), Excess(t));
  }

  lemma TieBlock(c: seq<Tagged>, s: seq<real>, i: nat, j: nat)
    requires IsRun(c, i, j)
    requires Tied(s, c[i].0) == j - i + 1
    ensures Sum(c[..j + 1], ExcessOf(s)) == Sum(c[..i], ExcessOf(s)) + Cubes((j - i + 1) as real)
  {
    hide Cubes, ExcessOf;
    var block := c[i..j + 1];
    assert c[..j + 1] == c[..i] + block;
    SumAppend(c[..i], block, ExcessOf(s));
    BlockExcess(block, s);
  }

  /** The first m merged entries have received their rank among s. */
  ghost predicate Ranked(c: seq<Tagged>, s: seq<real>, ranks: seq<real>, m: nat)
    requires m <= |c| == |ranks|
  {
    forall k | 0 <= k < m :: ranks[k] == Midrank(s, c[k].0)
  }

  lemma RankedNext(c: seq<Tagged>, s: seq<real>, ranks: seq<real>, k: nat, avg: real)
    requires k < |c| == |ranks| && Ranked(c, s, ranks, k)
    requires avg == Midrank(s, c[k].0)
    ensures Ranked(c, s, ranks[k := avg], k + 1)
  {
  }

  /** The rank loop: fills the ranks of the merged entries and adds up t^3 - t over the tied blocks. */
  method RankRuns(combined: seq<Tagged>, ghost a: seq<real>, ghost b: seq<real>)
      returns (ranks: seq<real>, tieTerm: real)
    requires Merges(combined, a, b)
    ensures |ranks| == |combined|
    ensures Ranked(combined, a + b, ranks, |combined|)
    ensures tieTerm == Sum(a + b, TieExcess(a + b))
  {
    var cells := new real[|combined|](_ => 0.0);
    var i := 0;
    tieTerm := 0.0;
    while i < |combined|
      invariant 0 <= i <= |combined|
      invariant 0 < i < |combined| ==> combined[i - 1].0 < combined[i].0
      invariant tieTerm == Sum(combined[..i], ExcessOf(a + b))
      invariant Ranked(combined, a + b, cells[..], i)
    {
      var j := i;
      while j + 1 < |combined| && combined[j + 1].0 == combined[i].0
        invariant i <= j < |combined|
        invariant forall k | i <= k <= j :: combined[k].0 == combined[i].0
      {
        j := j + 1;
      }
      TieRun(combined, a, b, i, j);
      TieBlock(combined, a + b, i, j);
      var avg := (i + j) as real / 2.0 + 1.0;
      tieTerm := tieTerm + Cubes((j - i + 1) as real);
      for k := i to j + 1
        invariant Ranked(combined, a + b, cells[..], k)
      {
        RankedNext(combined, a + b, cells[..], k, avg);
        ghost var before := cells[..];
        cells[k] := avg;
        assert cells[..] == before[k := avg];
      }
      i := j + 1;
    }
    assert combined[..i] == combined;
    MergedTotals(combined, a, b);
    ranks := cells[..];
  }

  /** The sum of the ranks of the first sample, read off the merged order. */
  method FirstRankSum(combined: seq<Tagged>, ranks: seq<real>, ghost a: seq<real>, ghost b: seq<real>)
      returns (ra: real)
    requires Merges(combined, a, b) && |ranks| == |combined|
    requires Ranked(combined, a + b, ranks, |combined|)
    ensures ra == Sum(a, RankAmong(a + b))
  {
    ra := 0.0;
    for k := 0 to |combined|
      invariant ra == Sum(combined[..k], RankOfFirst(a + b))
    {
      assert combined[..k + 1] == combined[..k] + [combined[k]];
      SumSnoc(combined[..k], combined[k], RankOfFirst(a + b));
      if combined[k].1 == 0 {
        ra := ra + ranks[k];
      }
    }
    assert combined[..|combined|] == combined;
    MergedTotals(combined, a, b);
  }

  /** U is the smaller of the two pair counts. */
  function StatisticOf(a: seq<real>, b: seq<real>): Statistic
    requires |a| >= 1 && |b| >= 1
  {
    Statistic(Min(PairCount(a, b), PairCount(b, a)), Pairs(|a|, |b|) / 2.0,
              SigmaSq(|a|, |b|, Sum(a + b, TieExcess(a + b))))
  }

  lemma MiddleOfPairs(na: nat, nb: nat)
    ensures Pairs(na, nb) / 2.0 == na as real * nb as real / 2.0
  {
  }

  /** There is no statistic exactly for small or wholly tied samples. */
  method MannWhitneyU(a: seq<real>, b: seq<real>) returns (r: Option<Statistic>)
    ensures r.None? <==> |a| < 3 || |b| < 3 || AllTied(a + b)
    ensures r.Some? ==> r.value == StatisticOf(a, b) && r.value.sigmaSq > 0.0
    ensures r.Some? ==>
      var s := a + b; var n := |s| as real;
      && r.value.u == Min(PairCount(a, b), PairCount(b, a)) && r.value.mu == |a| as real * |b| as real / 2.0
      && n * (n - 1.0) > 0.0
      && r.value.sigmaSq == Pairs(|a|, |b|) / (n * (n - 1.0)) * Sum(s, SquareFromMiddle(s))
  {
    var na, nb := |a|, |b|;
    if na < 3 || nb < 3 {
      return None;
    }
    var combined := Combined(a, b);
    var ranks, tieTerm := RankRuns(combined, a, b);
    var ra := FirstRankSum(combined, ranks, a, b);
    hide SigmaSq, PairCount, Pairs, LeastRankSum;
    RankSumIsPairCount(a, b, ra);
    SigmaSqSign(a, b);
    SigmaSqIsVariance(a, b);
    MiddleOfPairs(na, nb);
    var ua := ra - LeastRankSum(na);
    var ub := Pairs(na, nb) - ua;
    assert ua == PairCount(a, b) && ub == PairCount(b, a);
    var u := Min(ua, ub);
    var mu := Pairs(na, nb) / 2.0;
    var sigmaSq := SigmaSq(na, nb, tieTerm);
    if sigmaSq <= 0.0 {
      return None;
    }
    return Some(Statistic(u, mu, sigmaSq));
  }

  // ----- the p value -----

  /** math.erfc from zero on: it starts at 1, falls, and never reaches zero. */
  ghost predicate IsErfc(erfc: real -> real) {
    && erfc(0.0) == 1.0
    && (forall x | x >= 0.0 :: erfc(x) > 0.0)
    && (forall x, y | 0.0 <= x < y :: erfc(y) < erfc(x))
  }

  function Magnitude(x: real): real {
    if x < 0.0 then -x else x
  }

  /** The distance of u from its mean, in units of which erfc takes the two-sided tail. */
  function Distance(s: Statistic, root: real -> real): real
    requires root(s.sigmaSq) != 0.0 && root(2.0) != 0.0
  {
    Magnitude((s.u - s.mu) / root(s.sigmaSq)) / root(2.0)
  }

  /** Its square is (u - mu)^2 / (2 sigma_sq). */
  lemma DistanceSquared(s: Statistic, root: real -> real)
    requires IsSqrt(root) && s.sigmaSq > 0.0
    ensures root(s.sigmaSq) != 0.0 && root(2.0) != 0.0
    ensures var d := Distance(s, root);
      d >= 0.0 && (d * d) * (2.0 * s.sigmaSq) == (s.u - s.mu) * (s.u - s.mu)
  {
    RootPositive(root, s.sigmaSq);
    RootPositive(root, 2.0);
    var r, t, x := root(s.sigmaSq), root(2.0), s.u - s.mu;
    assert r * r == s.sigmaSq && t * t == 2.0;
    hide IsSqrt;
    var q := x / r;
    var z := Magnitude(q);
    var d := z / t;
    NonNegativeQuotient(z, t);
    assert q * r == x && d * t == z;
    assert z * z == q * q;
    assert (d * d) * (t * t) == (d * t) * (d * t) == z * z;
    assert (q * q) * (r * r) == (q * r) * (q * r) == x * x;
    assert (d * d) * (2.0 * s.sigmaSq) == ((d * d) * 2.0) * s.sigmaSq;
  }

  lemma QuotientSign(x: real, y: real)
    requires y > 0.0
    ensures Magnitude(x / y) >= 0.0 && (x / y == 0.0 <==> x == 0.0)
  {
    assert x / y * y == x;
  }

  /** The p value lies in (0, 1] and is 1 exactly when both samples win equally often. */
  lemma PRange(a: seq<real>, b: seq<real>, root: real -> real, erfc: real -> real)
    requires |a| >= 1 && |b| >= 1 && IsSqrt(root) && IsErfc(erfc) && StatisticOf(a, b).sigmaSq > 0.0
    ensures root(StatisticOf(a, b).sigmaSq) != 0.0 && root(2.0) != 0.0
    ensures var p := erfc(Distance(StatisticOf(a, b), root));
      0.0 < p <= 1.0 && (p == 1.0 <==> PairCount(a, b) == PairCount(b, a))
  {
    hide PairCount, Pairs, SigmaSq, IsSqrt;
    var s := StatisticOf(a, b);
    RootPositive(root, s.sigmaSq);
    RootPositive(root, 2.0);
    QuotientSign(s.u - s.mu, root(s.sigmaSq));
    var z := Magnitude((s.u - s.mu) / root(s.sigmaSq));
    QuotientSign(z, root(2.0));
    NonNegativeQuotient(z, root(2.0));
    MiddleIff(a, b);
  }

  lemma MiddleIff(a: seq<real>, b: seq<real>)
    requires |a| >= 1 && |b| >= 1
    ensures StatisticOf(a, b).u == StatisticOf(a, b).mu <==> PairCount(a, b) == PairCount(b, a)
  {
    hide PairCount, SigmaSq;
    PairCountSwap(a, b);
  }

  /** Swapping the samples changes neither the statistic nor, therefore, the p value. */
  lemma SwapKeepsStatistic(a: seq<real>, b: seq<real>)
    requires |a| >= 1 && |b| >= 1
    ensures StatisticOf(a, b) == StatisticOf(b, a)
  {
    hide PairCount;
    var ab, ba := a + b, b + a;
    assert multiset(ab) == multiset(ba);
    forall v
      ensures TieExcess(ab)(v) == TieExcess(ba)(v)
    {
      MidrankPermutation(ab, ba, v);
    }
    SumPermutation(ab, ba, TieExcess(ba));
    SumCongruent(ab, TieExcess(ab), TieExcess(ba));
    PairsSwap(|a|, |b|, Sum(ab, TieExcess(ab)));
  }

  lemma PairsSwap(na: nat, nb: nat, tieTerm: real)
    requires na + nb >= 2
    ensures Pairs(na, nb) == Pairs(nb, na) && SigmaSq(na, nb, tieTerm) == SigmaSq(nb, na, tieTerm)
  {
  }

  /** None exactly where there is no statistic; otherwise the two-sided p value of its distance. */
  method MannWhitneyP(a: seq<real>, b: seq<real>, root: real -> real, erfc: real -> real) returns (p: Option<real>)
    requires IsSqrt(root) && IsErfc(erfc)
    ensures p.None? <==> |a| < 3 || |b| < 3 || AllTied(a + b)
    ensures p.Some? ==>
      && root(StatisticOf(a, b).sigmaSq) != 0.0 && root(2.0) != 0.0
      && (var s, d := StatisticOf(a, b), Distance(StatisticOf(a, b), root);
          p.value == erfc(d) && d >= 0.0 && (d * d) * (2.0 * s.sigmaSq) == (s.u - s.mu) * (s.u - s.mu))
      && 0.0 < p.value <= 1.0 && (p.value == 1.0 <==> PairCount(a, b) == PairCount(b, a))
  {
    hide IsSqrt, IsErfc, StatisticOf, PairCount, AllTied;
    var s := MannWhitneyU(a, b);
    if s.None? {
      return None;
    }
    PRange(a, b, root, erfc);
    DistanceSquared(s.value, root);
    var z := (s.value.u - s.value.mu) / root(s.value.sigmaSq);
    return Some(2.0 * 0.5 * erfc(Magnitude(z) / root(2.0)));
  }
}
