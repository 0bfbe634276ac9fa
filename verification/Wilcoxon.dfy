/** The exact branch of the signed-rank test: every sign pattern is tried and the extreme ones are counted. */
module Wilcoxon {
  import opened Sums
  import opened Sorting
  import opened Ranks
  import opened Reals
  import opened Wrappers

  datatype Reading =
    | NotEnough                    // fewer than two differences: the source answers nan
    | Library(statistic: real, pValue: real)
    | TooMany                      // more than twenty: the source fails loud
    | Exact(w: real, ge: nat, total: nat)
  {
    function P(): real
      requires Exact? && total > 0
    {
      ge as real / total as real
    }
  }

  const EPSILON: real := 0.000000000001

  function Abs(x: real): (r: real)
    ensures r >= 0.0
  {
    if x < 0.0 then -x else x
  }

  function Kept(diffs: seq<real>): (d: seq<real>)
    ensures forall i | 0 <= i < |d| :: Abs(d[i]) > EPSILON
  {
    if diffs == [] then []
    else (if Abs(diffs[0]) > EPSILON then [diffs[0]] else []) + Kept(diffs[1..])
  }

  /** Exactly the differences of more than the threshold are kept, as often as they occur. */
  lemma {:induction false} KeptAre(diffs: seq<real>, x: real)
    ensures multiset(Kept(diffs))[x] == if x > EPSILON || -x > EPSILON then multiset(diffs)[x] else 0
  {
    if diffs != [] {
      KeptAre(diffs[1..], x);
      assert diffs == [diffs[0]] + diffs[1..];
    }
  }

  // ----- sign patterns -----

  function Pow2(n: nat): (r: nat)
    ensures r >= 1
  {
    if n == 0 then 1 else 2 * Pow2(n - 1)
  }

  function Prefixed(s: bool, patterns: seq<seq<bool>>): (r: seq<seq<bool>>)
    ensures |r| == |patterns| && forall i | 0 <= i < |r| :: r[i] == [s] + patterns[i]
  {
    seq(|patterns|, i requires 0 <= i < |patterns| => [s] + patterns[i])
  }

  /** itertools.product((0, 1), repeat = n) */
  function Patterns(n: nat): (r: seq<seq<bool>>)
    ensures |r| == Pow2(n)
    ensures forall i | 0 <= i < |r| :: |r[i]| == n
  {
    if n == 0 then [[]] else Prefixed(false, Patterns(n - 1)) + Prefixed(true, Patterns(n - 1))
  }

  /** W: the ranks with a positive sign, added up. */
  function SignedSum(signs: seq<bool>, ranks: seq<real>): real
    requires |signs| == |ranks|
  {
    if signs == [] then 0.0
    else (if signs[0] then ranks[0] else 0.0) + SignedSum(signs[1..], ranks[1..])
  }

  function Total(ranks: seq<real>): real {
    Sum(ranks, Self())
  }

  function Flipped(signs: seq<bool>): (r: seq<bool>)
    ensures |r| == |signs| && forall i | 0 <= i < |r| :: r[i] == !signs[i]
  {
    seq(|signs|, i requires 0 <= i < |signs| => !signs[i])
  }

  lemma {:induction false} FlippedSum(signs: seq<bool>, ranks: seq<real>)
    requires |signs| == |ranks|
    ensures SignedSum(Flipped(signs), ranks) == Total(ranks) - SignedSum(signs, ranks)
  {
    if signs != [] {
      assert Flipped(signs)[1..] == Flipped(signs[1..]);
      FlippedSum(signs[1..], ranks[1..]);
    }
  }

  /** How many of the listed patterns have an accepted W. */
  function Accepted(patterns: seq<seq<bool>>, ranks: seq<real>, base: real, accept: real -> bool): nat
    requires forall i | 0 <= i < |patterns| :: |patterns[i]| == |ranks|
  {
    if patterns == [] then 0
    else (if accept(base + SignedSum(patterns[0], ranks)) then 1 else 0) + Accepted(patterns[1..], ranks, base, accept)
  }

  /** How many of all 2^n patterns have an accepted base + W, by deciding one sign at a time. */
  function Count(ranks: seq<real>, base: real, accept: real -> bool): nat {
    if ranks == [] then (if accept(base) then 1 else 0)
    else Count(ranks[1..], base, accept) + Count(ranks[1..], base + ranks[0], accept)
  }

  lemma {:induction false} AcceptedAppend(p: seq<seq<bool>>, q: seq<seq<bool>>, ranks: seq<real>, base: real,
                                          accept: real -> bool)
    requires forall i | 0 <= i < |p| :: |p[i]| == |ranks|
    requires forall i | 0 <= i < |q| :: |q[i]| == |ranks|
    ensures Accepted(p + q, ranks, base, accept) == Accepted(p, ranks, base, accept) + Accepted(q, ranks, base, accept)
  {
    if p == [] {
      assert p + q == q;
    } else {
      assert (p + q)[1..] == p[1..] + q;
      AcceptedAppend(p[1..], q, ranks, base, accept);
    }
  }

  lemma {:induction false} AcceptedPrefixed(s: bool, p: seq<seq<bool>>, ranks: seq<real>, base: real,
                                            accept: real -> bool)
    requires ranks != []
    requires forall i | 0 <= i < |p| :: |p[i]| == |ranks| - 1
    ensures Accepted(Prefixed(s, p), ranks, base, accept)
         == Accepted(p, ranks[1..], base + if s then ranks[0] else 0.0, accept)
  {
    if p != [] {
      assert Prefixed(s, p)[1..] == Prefixed(s, p[1..]);
      assert ([s] + p[0])[1..] == p[0];
      AcceptedPrefixed(s, p[1..], ranks, base, accept);
    }
  }

  lemma AcceptedBothSigns(p: seq<seq<bool>>, ranks: seq<real>, base: real, accept: real -> bool)
    requires ranks != []
    requires forall i | 0 <= i < |p| :: |p[i]| == |ranks| - 1
    ensures Accepted(Prefixed(false, p) + Prefixed(true, p), ranks, base, accept)
         == Accepted(p, ranks[1..], base, accept) + Accepted(p, ranks[1..], base + ranks[0], accept)
  {
    hide Accepted;
    AcceptedAppend(Prefixed(false, p), Prefixed(true, p), ranks, base, accept);
    AcceptedPrefixed(false, p, ranks, base, accept);
    AcceptedPrefixed(true, p, ranks, base, accept);
    assert base + 0.0 == base;
  }

  /** The enumeration visits every sign pattern once. */
  lemma {:induction false} EnumerationCounts(ranks: seq<real>, base: real, accept: real -> bool)
    ensures Accepted(Patterns(|ranks|), ranks, base, accept) == Count(ranks, base, accept)
  {
    hide Pow2;
    if ranks == [] {
      assert base + SignedSum([], ranks) == base;
    } else {
      hide Accepted, SignedSum;
      var rest := Patterns(|ranks| - 1);
      assert Patterns(|ranks|) == Prefixed(false, rest) + Prefixed(true, rest);
      hide Patterns, Prefixed;
      AcceptedBothSigns(rest, ranks, base, accept);
      EnumerationCounts(ranks[1..], base, accept);
      EnumerationCounts(ranks[1..], base + ranks[0], accept);
    }
  }

  // ----- reflection -----

  function Reflect(accept: real -> bool, m: real): real -> bool {
    x => accept(m - x)
  }

  lemma {:induction false} CountReflected(ranks: seq<real>, base: real, accept: real -> bool, m: real)
    ensures Count(ranks, base, accept) == Count(ranks, m - base - Total(ranks), Reflect(accept, m))
  {
    if ranks != [] {
      CountReflected(ranks[1..], base, accept, m);
      CountReflected(ranks[1..], base + ranks[0], accept, m);
      assert m - base - Total(ranks) == m - (base + ranks[0]) - Total(ranks[1..]);
      assert m - base - Total(ranks) + ranks[0] == m - base - Total(ranks[1..]);
    } else {
      assert Reflect(accept, m)(m - base) == accept(base);
    }
  }

  function EqualTo(w: real): real -> bool {
    x => x == w
  }

  lemma {:induction false} CountCongruent(ranks: seq<real>, base: real, p: real -> bool, q: real -> bool)
    requires forall signs: seq<bool> | |signs| == |ranks| ::
      p(base + SignedSum(signs, ranks)) == q(base + SignedSum(signs, ranks))
    ensures Count(ranks, base, p) == Count(ranks, base, q)
  {
    if ranks == [] {
      var none: seq<bool> := [];
      assert base + SignedSum(none, ranks) == base;
    } else {
      forall signs: seq<bool> | |signs| == |ranks[1..]|
        ensures p(base + SignedSum(signs, ranks[1..])) == q(base + SignedSum(signs, ranks[1..]))
        ensures p(base + ranks[0] + SignedSum(signs, ranks[1..])) == q(base + ranks[0] + SignedSum(signs, ranks[1..]))
      {
        assert ([false] + signs)[1..] == signs && ([true] + signs)[1..] == signs;
        assert SignedSum([false] + signs, ranks) == SignedSum(signs, ranks[1..]);
        assert base + SignedSum([true] + signs, ranks) == base + ranks[0] + SignedSum(signs, ranks[1..]);
      }
      CountCongruent(ranks[1..], base, p, q);
      CountCongruent(ranks[1..], base + ranks[0], p, q);
    }
  }

  /** As many sign patterns give W = w as give W = n(n+1)/2 - w, n(n+1)/2 being the total of the ranks. */
  lemma DistributionSymmetric(ranks: seq<real>, w: real)
    ensures Count(ranks, 0.0, EqualTo(w)) == Count(ranks, 0.0, EqualTo(Total(ranks) - w))
  {
    var m := Total(ranks);
    CountReflected(ranks, 0.0, EqualTo(w), m);
    forall signs: seq<bool> | |signs| == |ranks|
      ensures Reflect(EqualTo(w), m)(0.0 + SignedSum(signs, ranks)) == EqualTo(m - w)(0.0 + SignedSum(signs, ranks))
    {
    }
    CountCongruent(ranks, 0.0, Reflect(EqualTo(w), m), EqualTo(m - w));
  }

  lemma {:induction false} CountAtMostAll(ranks: seq<real>, base: real, accept: real -> bool)
    ensures Count(ranks, base, accept) <= Pow2(|ranks|)
  {
    if ranks != [] {
      CountAtMostAll(ranks[1..], base, accept);
      CountAtMostAll(ranks[1..], base + ranks[0], accept);
    }
  }

  lemma {:induction false} CountAtLeastOne(ranks: seq<real>, base: real, accept: real -> bool, signs: seq<bool>)
    requires |signs| == |ranks| && accept(base + SignedSum(signs, ranks))
    ensures Count(ranks, base, accept) >= 1
  {
    if ranks != [] {
      CountAtLeastOne(ranks[1..], base + (if signs[0] then ranks[0] else 0.0), accept, signs[1..]);
    }
  }

  lemma SignedSumHead(signs: seq<bool>, ranks: seq<real>)
    requires |signs| == |ranks| >= 1
    ensures SignedSum(signs, ranks) == (if signs[0] then ranks[0] else 0.0) + SignedSum(signs[1..], ranks[1..])
  {
  }

  lemma CountBoth(ranks: seq<real>, accept: real -> bool, up: seq<bool>, down: seq<bool>)
    requires |up| == |down| == |ranks| >= 1 && up[0] && !down[0]
    requires accept(SignedSum(up, ranks)) && accept(SignedSum(down, ranks))
    ensures Count(ranks, 0.0, accept) >= 2
  {
    hide SignedSum;
    SignedSumHead(up, ranks);
    SignedSumHead(down, ranks);
    CountAtLeastOne(ranks[1..], 0.0 + ranks[0], accept, up[1..]);
    CountAtLeastOne(ranks[1..], 0.0, accept, down[1..]);
  }

  /** A pattern and its flip are two different patterns. */
  lemma CountAtLeastTwo(ranks: seq<real>, accept: real -> bool, signs: seq<bool>)
    requires |signs| == |ranks| >= 1
    requires accept(SignedSum(signs, ranks)) && accept(SignedSum(Flipped(signs), ranks))
    ensures Count(ranks, 0.0, accept) >= 2
  {
    hide SignedSum, Count;
    if signs[0] {
      CountBoth(ranks, accept, signs, Flipped(signs));
    } else {
      CountBoth(ranks, accept, Flipped(signs), signs);
    }
  }

  // ----- the test -----

  function Magnitude(): real -> real {
    x => Abs(x)
  }

  function RanksOf(d: seq<real>): (r: seq<real>)
    ensures |r| == |d|
  {
    Map(Map(d, Magnitude()), RankAmong(Map(d, Magnitude())))
  }

  function Positive(d: seq<real>): (r: seq<bool>)
    ensures |r| == |d| && forall i | 0 <= i < |r| :: r[i] == (d[i] > 0.0)
  {
    seq(|d|, i requires 0 <= i < |d| => d[i] > 0.0)
  }

  function WObserved(d: seq<real>): real {
    SignedSum(Positive(d), RanksOf(d))
  }

  /** n(n+1)/4, the middle of the distribution of W */
  function Centre(n: nat): real {
    n as real * (n + 1) as real / 4.0
  }

  /** At least as far from the centre as the observed W, up to a slack. */
  function Extreme(n: nat, w: real, slack: real): real -> bool {
    x => Abs(x - Centre(n)) >= Abs(w - Centre(n)) - slack
  }

  lemma {:induction false} TotalIsSum(s: seq<real>, f: real -> real)
    ensures Total(Map(s, f)) == Sum(s, f)
  {
    if s != [] {
      assert Map(s, f)[1..] == Map(s[1..], f);
      TotalIsSum(s[1..], f);
    }
  }

  /** The ranks of n differences total n(n+1)/2: twice the centre. */
  lemma RanksOfTotal(d: seq<real>)
    ensures Total(RanksOf(d)) == 2.0 * Centre(|d|)
  {
    var m := Map(d, Magnitude());
    TotalIsSum(m, RankAmong(m));
    RanksTotal(m);
  }

  lemma FlipKeepsExtreme(n: nat, w: real, slack: real, x: real)
    ensures Extreme(n, w, slack)(x) == Extreme(n, w, slack)(2.0 * Centre(n) - x)
    ensures Extreme(n, w, slack)(x) == Extreme(n, 2.0 * Centre(n) - w, slack)(x)
  {
    hide Centre;
    var c := Centre(n);
    assert Abs(2.0 * c - x - c) == Abs(x - c);
    assert Abs(2.0 * c - w - c) == Abs(w - c);
  }

  lemma ObservedIsExtreme(d: seq<real>, slack: real)
    requires slack >= 0.0
    ensures Extreme(|d|, WObserved(d), slack)(SignedSum(Positive(d), RanksOf(d)))
    ensures Extreme(|d|, WObserved(d), slack)(SignedSum(Flipped(Positive(d)), RanksOf(d)))
  {
    hide Centre, RanksOf, SignedSum, Total;
    RanksOfTotal(d);
    FlippedSum(Positive(d), RanksOf(d));
    FlipKeepsExtreme(|d|, WObserved(d), slack, WObserved(d));
  }

  /** 2^(1-n) <= p <= 1 */
  lemma PBounds(d: seq<real>, slack: real)
    requires |d| >= 1 && slack >= 0.0
    ensures 2 <= Count(RanksOf(d), 0.0, Extreme(|d|, WObserved(d), slack)) <= Pow2(|d|)
  {
    ObservedIsExtreme(d, slack);
    hide Extreme, RanksOf, Count, SignedSum, Pow2, WObserved;
    CountAtLeastTwo(RanksOf(d), Extreme(|d|, WObserved(d), slack), Positive(d));
    CountAtMostAll(RanksOf(d), 0.0, Extreme(|d|, WObserved(d), slack));
  }

  // ----- two tails -----

  function AtLeast(t: real): real -> bool {
    x => x >= t
  }

  function AtMost(t: real): real -> bool {
    x => x <= t
  }

  lemma {:induction false} CountMonotone(ranks: seq<real>, base: real, p: real -> bool, q: real -> bool)
    requires forall x | p(x) :: q(x)
    ensures Count(ranks, base, p) <= Count(ranks, base, q)
  {
    if ranks != [] {
      CountMonotone(ranks[1..], base, p, q);
      CountMonotone(ranks[1..], base + ranks[0], p, q);
    }
  }

  lemma {:induction false} CountDisjoint(ranks: seq<real>, base: real, p: real -> bool, q: real -> bool,
                                         either: real -> bool)
    requires forall x :: (either(x) <==> p(x) || q(x)) && !(p(x) && q(x))
    ensures Count(ranks, base, either) == Count(ranks, base, p) + Count(ranks, base, q)
  {
    if ranks != [] {
      CountDisjoint(ranks[1..], base, p, q, either);
      CountDisjoint(ranks[1..], base + ranks[0], p, q, either);
    }
  }

  lemma {:induction false} CountEvery(ranks: seq<real>, base: real, accept: real -> bool)
    requires forall x :: accept(x)
    ensures Count(ranks, base, accept) == Pow2(|ranks|)
  {
    if ranks != [] {
      CountEvery(ranks[1..], base, accept);
      CountEvery(ranks[1..], base + ranks[0], accept);
    }
  }

  /** Only the pattern with every sign positive reaches the total. */
  lemma {:induction false} CountTop(ranks: seq<real>, base: real, t: real)
    requires forall i | 0 <= i < |ranks| :: ranks[i] > 0.0
    ensures t > base + Total(ranks) ==> Count(ranks, base, AtLeast(t)) == 0
    ensures t == base + Total(ranks) ==> Count(ranks, base, AtLeast(t)) == 1
  {
    if ranks != [] {
      CountTop(ranks[1..], base, t);
      CountTop(ranks[1..], base + ranks[0], t);
      assert base + Total(ranks) == base + ranks[0] + Total(ranks[1..]);
    }
  }

  lemma LowerTailIsUpper(ranks: seq<real>, t: real)
    ensures Count(ranks, 0.0, AtMost(Total(ranks) - t)) == Count(ranks, 0.0, AtLeast(t))
  {
    var m := Total(ranks);
    CountReflected(ranks, 0.0, AtLeast(t), m);
    assert forall x :: Reflect(AtLeast(t), m)(x) == AtMost(m - t)(x);
    CountCongruent(ranks, 0.0, Reflect(AtLeast(t), m), AtMost(m - t));
  }

  /** Patterns farther out are fewer. */
  lemma FartherCountsLess(d: seq<real>, w: real, w': real)
    requires Abs(w - Centre(|d|)) <= Abs(w' - Centre(|d|))
    ensures Count(RanksOf(d), 0.0, Extreme(|d|, w', 0.0)) <= Count(RanksOf(d), 0.0, Extreme(|d|, w, 0.0))
  {
    hide Centre, Abs;
    CountMonotone(RanksOf(d), 0.0, Extreme(|d|, w', 0.0), Extreme(|d|, w, 0.0));
  }

  lemma ExtremeIsTails(n: nat, w: real, x: real)
    ensures var c := Centre(n); var far := if w < c then 2.0 * c - w else w;
      Extreme(n, w, 0.0)(x) <==> x >= far || x <= 2.0 * c - far
  {
    hide Centre;
    var c := Centre(n);
    assert Extreme(n, w, 0.0)(x) == (Abs(x - c) >= Abs(w - c) - 0.0);
  }

  /** The count is twice the upper tail from the farther of W and its mirror image; at the centre it is everything. */
  lemma CountIsTwoTails(d: seq<real>, w: real)
    ensures var c := Centre(|d|); var far := if w < c then 2.0 * c - w else w;
      Count(RanksOf(d), 0.0, Extreme(|d|, w, 0.0))
      == if w == c then Pow2(|d|) else 2 * Count(RanksOf(d), 0.0, AtLeast(far))
  {
    hide Centre, RanksOf, Count, Pow2, Total;
    var c := Centre(|d|);
    var far := if w < c then 2.0 * c - w else w;
    if w == c {
      forall x
        ensures Extreme(|d|, w, 0.0)(x)
      {
        ExtremeIsTails(|d|, w, x);
      }
      CountEvery(RanksOf(d), 0.0, Extreme(|d|, w, 0.0));
    } else {
      RanksOfTotal(d);
      LowerTailIsUpper(RanksOf(d), far);
      forall x
        ensures Extreme(|d|, w, 0.0)(x) <==> AtLeast(far)(x) || AtMost(2.0 * c - far)(x)
        ensures !(AtLeast(far)(x) && AtMost(2.0 * c - far)(x))
      {
        ExtremeIsTails(|d|, w, x);
      }
      CountDisjoint(RanksOf(d), 0.0, AtLeast(far), AtMost(2.0 * c - far), Extreme(|d|, w, 0.0));
    }
  }

  lemma {:induction false} OneSignSum(signs: seq<bool>, ranks: seq<real>)
    requires |signs| == |ranks|
    ensures (forall i | 0 <= i < |signs| :: signs[i]) ==> SignedSum(signs, ranks) == Total(ranks)
    ensures (forall i | 0 <= i < |signs| :: !signs[i]) ==> SignedSum(signs, ranks) == 0.0
  {
    if signs != [] {
      OneSignSum(signs[1..], ranks[1..]);
    }
  }

  lemma RanksPositive(d: seq<real>)
    ensures forall i | 0 <= i < |d| :: RanksOf(d)[i] > 0.0
  {
  }

  /** If all differences have one sign, W is everything or nothing, and exactly two patterns are as extreme. */
  lemma OneSignIsRarest(d: seq<real>)
    requires d != []
    requires (forall i | 0 <= i < |d| :: d[i] > 0.0) || (forall i | 0 <= i < |d| :: d[i] <= 0.0)
    ensures WObserved(d) == if d[0] > 0.0 then 2.0 * Centre(|d|) else 0.0
    ensures Count(RanksOf(d), 0.0, Extreme(|d|, WObserved(d), 0.0)) == 2
  {
    CentrePositive(|d|);
    RanksPositive(d);
    OneSignSum(Positive(d), RanksOf(d));
    hide Centre, RanksOf, Count, SignedSum, Total, Extreme;
    RanksOfTotal(d);
    CountIsTwoTails(d, WObserved(d));
    CountTop(RanksOf(d), 0.0, 2.0 * Centre(|d|));
  }

  lemma CentrePositive(n: nat)
    requires n > 0
    ensures Centre(n) > 0.0
  {
    PositiveTimes(n as real, (n + 1) as real);
  }

  // ----- negating every difference -----

  function Negate(): real -> real {
    x => -x
  }

  lemma {:induction false} KeptNegated(diffs: seq<real>)
    ensures Kept(Map(diffs, Negate())) == Map(Kept(diffs), Negate())
  {
    if diffs != [] {
      assert Map(diffs, Negate())[1..] == Map(diffs[1..], Negate());
      KeptNegated(diffs[1..]);
    }
  }

  /** Negating every difference reflects W about its centre and leaves the count of extreme patterns unchanged. */
  lemma NegationKeepsCount(diffs: seq<real>, slack: real)
    ensures var d, e := Kept(diffs), Kept(Map(diffs, Negate()));
      && |e| == |d| && RanksOf(e) == RanksOf(d)
      && WObserved(e) == 2.0 * Centre(|d|) - WObserved(d)
      && Count(RanksOf(e), 0.0, Extreme(|e|, WObserved(e), slack))
         == Count(RanksOf(d), 0.0, Extreme(|d|, WObserved(d), slack))
  {
    hide Centre;
    var d, e := Kept(diffs), Kept(Map(diffs, Negate()));
    KeptNegated(diffs);
    assert Map(e, Magnitude()) == Map(d, Magnitude());
    assert Positive(e) == Flipped(Positive(d));
    FlippedSum(Positive(d), RanksOf(d));
    RanksOfTotal(d);
    forall signs: seq<bool> | |signs| == |RanksOf(d)|
      ensures Extreme(|e|, WObserved(e), slack)(0.0 + SignedSum(signs, RanksOf(d)))
           == Extreme(|d|, WObserved(d), slack)(0.0 + SignedSum(signs, RanksOf(d)))
    {
      FlipKeepsExtreme(|d|, WObserved(d), slack, 0.0 + SignedSum(signs, RanksOf(d)));
    }
    CountCongruent(RanksOf(d), 0.0, Extreme(|e|, WObserved(e), slack), Extreme(|d|, WObserved(d), slack));
  }

  // ----- the slack is harmless -----

  predicate Whole(x: real) {
    x.Floor as real == x
  }

  lemma WholeInt(x: real, k: int)
    requires x == k as real
    ensures Whole(x)
  {
  }

  lemma WholeSum(x: real, y: real)
    requires Whole(x) && Whole(y)
    ensures Whole(x + y) && Whole(x - y) && Whole(-x)
  {
    WholeInt(x + y, x.Floor + y.Floor);
    WholeInt(x - y, x.Floor - y.Floor);
    WholeInt(-x, -x.Floor);
  }

  lemma WholeGap(x: real, y: real)
    requires Whole(x) && Whole(y) && x < y
    ensures x + 1.0 <= y
  {
    assert x.Floor < y.Floor;
  }

  lemma {:induction false} SignedSumHalves(signs: seq<bool>, ranks: seq<real>)
    requires |signs| == |ranks|
    requires forall i | 0 <= i < |ranks| :: Whole(2.0 * ranks[i])
    ensures Whole(2.0 * SignedSum(signs, ranks))
  {
    if signs != [] {
      SignedSumHalves(signs[1..], ranks[1..]);
      WholeSum(2.0 * ranks[0], 2.0 * SignedSum(signs[1..], ranks[1..]));
    }
  }

  lemma MidrankHalves(s: seq<real>, v: real)
    ensures Whole(2.0 * Midrank(s, v))
  {
    hide Below, Tied;
    WholeInt(2.0 * Midrank(s, v), 2 * Below(s, v) + Tied(s, v) + 1);
  }

  lemma CentreQuarters(n: nat)
    ensures Whole(4.0 * Centre(n))
  {
    WholeInt(4.0 * Centre(n), n * (n + 1));
  }

  lemma DistanceQuarters(x: real, c: real)
    requires Whole(2.0 * x) && Whole(4.0 * c)
    ensures Whole(4.0 * Abs(x - c))
  {
    WholeInt(4.0 * x, 2 * (2.0 * x).Floor);
    WholeSum(4.0 * x, 4.0 * c);
    WholeSum(4.0 * x - 4.0 * c, 0.0);
  }

  lemma SlackHarmlessOnce(n: nat, w: real, x: real)
    requires Whole(2.0 * w) && Whole(2.0 * x)
    ensures Extreme(n, w, EPSILON)(x) == Extreme(n, w, 0.0)(x)
  {
    CentreQuarters(n);
    hide Centre;
    var far, near := Abs(w - Centre(n)), Abs(x - Centre(n));
    DistanceQuarters(w, Centre(n));
    DistanceQuarters(x, Centre(n));
    if near < far {
      WholeGap(4.0 * near, 4.0 * far);
    }
  }

  /** W and its centre are multiples of a quarter, so in exact arithmetic the 1e-12 slack changes no comparison. */
  lemma SlackHarmless(d: seq<real>)
    ensures Count(RanksOf(d), 0.0, Extreme(|d|, WObserved(d), EPSILON))
         == Count(RanksOf(d), 0.0, Extreme(|d|, WObserved(d), 0.0))
  {
    var ranks := RanksOf(d);
    forall i | 0 <= i < |ranks|
      ensures Whole(2.0 * ranks[i])
    {
      MidrankHalves(Map(d, Magnitude()), Map(d, Magnitude())[i]);
    }
    SignedSumHalves(Positive(d), ranks);
    forall signs: seq<bool> | |signs| == |ranks|
      ensures Extreme(|d|, WObserved(d), EPSILON)(0.0 + SignedSum(signs, ranks))
           == Extreme(|d|, WObserved(d), 0.0)(0.0 + SignedSum(signs, ranks))
    {
      SignedSumHalves(signs, ranks);
      SlackHarmlessOnce(|d|, WObserved(d), SignedSum(signs, ranks));
    }
    CountCongruent(ranks, 0.0, Extreme(|d|, WObserved(d), EPSILON), Extreme(|d|, WObserved(d), 0.0));
  }

  // ----- the loop -----

  method SumOfPositive(signs: seq<bool>, ranks: seq<real>) returns (w: real)
    requires |signs| == |ranks|
    ensures w == SignedSum(signs, ranks)
  {
    w := 0.0;
    for k := 0 to |signs|
      invariant w == SignedSum(signs, ranks) - SignedSum(signs[k..], ranks[k..])
    {
      assert signs[k..][1..] == signs[k + 1..] && ranks[k..][1..] == ranks[k + 1..];
      if signs[k] {
        w := w + ranks[k];
      }
    }
  }

  /** The enumeration loop. */
  method CountExtreme(ranks: seq<real>, wObs: real) returns (ge: nat, total: nat)
    ensures ge == Count(ranks, 0.0, Extreme(|ranks|, wObs, EPSILON))
    ensures total == Pow2(|ranks|)
  {
    hide Count, SignedSum, Pow2, Centre, Patterns;
    var n := |ranks|;
    var patterns := Patterns(n);
    ghost var accept := Extreme(n, wObs, EPSILON);
    ge, total := 0, 0;
    for k := 0 to |patterns|
      invariant total == k
      invariant ge + Accepted(patterns[k..], ranks, 0.0, accept) == Accepted(patterns, ranks, 0.0, accept)
    {
      assert patterns[k..][1..] == patterns[k + 1..];
      var w := SumOfPositive(patterns[k], ranks);
      total := total + 1;
      if Abs(w - Centre(n)) >= Abs(wObs - Centre(n)) - EPSILON {
        ge := ge + 1;
      }
    }
    EnumerationCounts(ranks, 0.0, accept);
  }

  lemma FractionBounds(ge: int, total: nat)
    requires 2 <= ge <= total
    ensures 2.0 / total as real <= ge as real / total as real <= 1.0
  {
    var n, p, least := total as real, ge as real / total as real, 2.0 / total as real;
    TimesQuotient(ge as real, n);
    TimesQuotient(2.0, n);
    if p > 1.0 {
      PositiveTimes(p - 1.0, n);
    }
    if least > p {
      PositiveTimes(least - p, n);
    }
  }

  /** scipy gets the kept differences where it is installed. Otherwise the p value counts, without any slack, the sign
      patterns at least as extreme as the observed one. */
  method WilcoxonSignedRank(diffs: seq<real>, scipy: Option<seq<real> -> (real, real)>) returns (r: Reading)
    ensures r.NotEnough? <==> |Kept(diffs)| < 2
    ensures r.Library? <==> scipy.Some? && |Kept(diffs)| >= 2
    ensures r.Library? ==> (r.statistic, r.pValue) == scipy.value(Kept(diffs))
    ensures r.TooMany? <==> scipy.None? && |Kept(diffs)| > 20
    ensures r.Exact? ==>
      var d := Kept(diffs);
      && r.w == WObserved(d)
      && r.ge == Count(RanksOf(d), 0.0, Extreme(|d|, WObserved(d), 0.0))
      && r.total == Pow2(|d|)
      && 2.0 / Pow2(|d|) as real <= r.P() <= 1.0
      && (r.w != Centre(|d|) ==> r.ge == 2 * Count(RanksOf(d), 0.0, AtLeast(Max(r.w, 2.0 * Centre(|d|) - r.w))))
      && (r.w == Centre(|d|) ==> r.ge == r.total)
      && ((forall i | 0 <= i < |d| :: d[i] > 0.0) ==> r.w == 2.0 * Centre(|d|) && r.ge == 2)
      && ((forall i | 0 <= i < |d| :: d[i] <= 0.0) ==> r.w == 0.0 && r.ge == 2)
  {
    hide Count, SignedSum, Pow2, Centre, Extreme, Kept;
    var d := Kept(diffs);
    var n := |d|;
    if n < 2 {
      return NotEnough;
    }
    if scipy.Some? {
      var (statistic, pValue) := scipy.value(d);
      return Library(statistic, pValue);
    }
    var ranks := Midranks(Map(d, Magnitude()));
    assert ranks == RanksOf(d);
    var wObs := SumOfPositive(Positive(d), ranks);
    if n > 20 {
      return TooMany;
    }
    var ge, total := CountExtreme(ranks, wObs);
    SlackHarmless(d);
    PBounds(d, 0.0);
    CountIsTwoTails(d, wObs);
    if (forall i | 0 <= i < |d| :: d[i] > 0.0) || (forall i | 0 <= i < |d| :: d[i] <= 0.0) {
      OneSignIsRarest(d);
    }
    FractionBounds(ge, total);
    return Exact(wObs, ge, total);
  }
}
