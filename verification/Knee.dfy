/** The capacity reads of one arm: the knee and the interpolated capacity index of its queue shares. */
module Knee {
  import opened Reals
  import opened Wrappers

  const RUNGS: seq<real> := [1.0, 1.1, 1.2, 1.3, 1.5]
  const SHARE_BAR := 0.8

  /** Median queue shares, rung by rung; None where a rung has not been run. */
  type Shares = seq<Option<real>>

  /** Rungs and shares are paired off; what is longer is cut. */
  function Pairs(shares: Shares): (n: nat)
    ensures n <= |shares| && n <= |RUNGS|
  {
    if |shares| < |RUNGS| then |shares| else |RUNGS|
  }

  predicate Complete(shares: Shares) {
    forall i | 0 <= i < Pairs(shares) :: shares[i].Some?
  }

  lemma RungsRise(i: nat, j: nat)
    requires i < j < |RUNGS|
    ensures 1.0 <= RUNGS[i] < RUNGS[j]
  {
  }

  /** The first c shares are there and at most at the bar. */
  ghost predicate Admissible(shares: Shares, c: nat)
    requires c <= Pairs(shares)
  {
    forall i | 0 <= i < c :: shares[i].Some? && shares[i].value <= SHARE_BAR
  }

  /** The share is over the bar for the first time at rung c; c is the number of rungs if it never is. */
  ghost predicate Crosses(shares: Shares, c: nat) {
    && c <= Pairs(shares) && Admissible(shares, c)
    && (c < Pairs(shares) ==> shares[c].Some? && shares[c].value > SHARE_BAR)
  }

  // ----- knee -----

  ghost function KneeAt(c: nat): real
    requires c <= |RUNGS|
  {
    if c == 0 then 0.0 else RUNGS[c - 1]
  }

  /** The first c shares are there and at most 0.8; the next one, if there is one, is over 0.8. */
  ghost predicate LastBelow(shares: Shares, c: nat) {
    && c <= |RUNGS| && c <= |shares| && (forall i | 0 <= i < c :: shares[i].Some? && shares[i].value <= 0.8)
    && (c == |RUNGS| || c == |shares| || (shares[c].Some? && shares[c].value > 0.8))
  }

  /** The rung up to which all shares are low enough; 0 stands for no rung at all. */
  ghost predicate IsKnee(shares: Shares, knee: real) {
    exists c: nat :: LastBelow(shares, c) && knee == if c == 0 then 0.0 else RUNGS[c - 1]
  }

  lemma CrossingIsKnee(shares: Shares, c: nat)
    requires Crosses(shares, c)
    ensures IsKnee(shares, KneeAt(c))
  {
    assert LastBelow(shares, c);
  }

  /** None exactly when a missing share comes before any crossing; otherwise the last rung before the crossing. */
  method FindKnee(shares: Shares) returns (knee: Option<real>)
    ensures knee.Some? <==> exists c: nat :: Crosses(shares, c)
    ensures forall c: nat | Crosses(shares, c) :: knee == Some(KneeAt(c))
    ensures knee.None? ==> exists c: nat :: c < Pairs(shares) && Admissible(shares, c) && shares[c].None?
    ensures knee.Some? ==> IsKnee(shares, knee.value)
  {
    var best := 0.0;
    for i := 0 to Pairs(shares)
      invariant Admissible(shares, i) && best == KneeAt(i)
    {
      if shares[i].None? {
        NoCrossing(shares, i);
        return None;
      }
      if shares[i].value > SHARE_BAR {
        assert Crosses(shares, i);
        OnlyCrossing(shares, i);
        CrossingIsKnee(shares, i);
        return Some(best);
      }
      best := RUNGS[i];
    }
    assert Crosses(shares, Pairs(shares));
    OnlyCrossing(shares, Pairs(shares));
    CrossingIsKnee(shares, Pairs(shares));
    return Some(best);
  }

  lemma NoCrossing(shares: Shares, i: nat)
    requires i < Pairs(shares) && Admissible(shares, i) && shares[i].None?
    ensures forall d: nat :: !Crosses(shares, d)
  {
  }

  lemma OnlyCrossing(shares: Shares, c: nat)
    requires Crosses(shares, c)
    ensures forall d: nat | Crosses(shares, d) :: d == c
  {
  }

  // ----- capacity index -----

  function Ratio(a: real, b: real): real
    requires b != 0.0
  {
    a / b
  }

  function Interpolated(x0: real, s0: real, x1: real, s1: real): real
    requires s1 != s0
  {
    x0 + Ratio(Times(x1 - x0, SHARE_BAR - s0), s1 - s0)
  }

  ghost function IndexAt(shares: Shares, c: nat): real
    requires Complete(shares) && shares != [] && Crosses(shares, c)
  {
    if c == 0 then RUNGS[0]
    else if c == Pairs(shares) then RUNGS[c - 1]
    else Interpolated(RUNGS[c - 1], shares[c - 1].value, RUNGS[c], shares[c].value)
  }

  method CapacityIndex(shares: Shares) returns (index: Option<real>)
    requires shares != []
    ensures index.Some? <==> Complete(shares)
    ensures Complete(shares) ==> exists c: nat :: Crosses(shares, c) && index.value == IndexAt(shares, c)
  {
    hide Times, Ratio;
    if !Complete(shares) {
      return None;
    }
    if shares[0].value > SHARE_BAR {
      assert Crosses(shares, 0);
      return Some(RUNGS[0]);
    }
    var i := 0;
    while i + 1 < Pairs(shares)
      invariant i < Pairs(shares) && Admissible(shares, i + 1)
    {
      var x0, s0, x1, s1 := RUNGS[i], shares[i].value, RUNGS[i + 1], shares[i + 1].value;
      if s1 > SHARE_BAR {
        assert Crosses(shares, i + 1);
        return Some(Interpolated(x0, s0, x1, s1));
      }
      i := i + 1;
    }
    assert Crosses(shares, i + 1);
    return Some(RUNGS[i]);
  }

  // ----- what the index means -----

  /** The straight line through the two points is at the bar there, and nowhere else. */
  lemma OnTheLine(x0: real, s0: real, x1: real, s1: real, x: real)
    requires x0 < x1 && s0 < s1
    ensures x == Interpolated(x0, s0, x1, s1) <==> (x - x0) * (s1 - s0) == (x1 - x0) * (SHARE_BAR - s0)
  {
    var p, q := Times(x1 - x0, SHARE_BAR - s0), s1 - s0;
    QuotientUnique(p, q, x - x0);
  }

  lemma QuotientUnique(p: real, q: real, d: real)
    requires q != 0.0
    ensures d == Ratio(p, q) <==> d * q == p
  {
    if d * q == p {
      assert (d - p / q) * q == 0.0;
    }
  }

  /** A crossing after the first rung lies between the last admissible rung and the next, at it only if its share is. */
  lemma InterpolatedBetween(x0: real, s0: real, x1: real, s1: real)
    requires x0 < x1 && s0 <= SHARE_BAR < s1
    ensures x0 <= Interpolated(x0, s0, x1, s1) < x1
    ensures Interpolated(x0, s0, x1, s1) == x0 <==> s0 == SHARE_BAR
  {
    var x := Interpolated(x0, s0, x1, s1);
    OnTheLine(x0, s0, x1, s1, x);
    SignFromProduct(x - x0, s1 - s0, x1 - x0, SHARE_BAR - s0);
    assert (x1 - x) * (s1 - s0) == (x1 - x0) * (s1 - SHARE_BAR);
    SignFromProduct(x1 - x, s1 - s0, x1 - x0, s1 - SHARE_BAR);
  }

  lemma SignFromProduct(a: real, b: real, c: real, d: real)
    requires b > 0.0 && c > 0.0 && d >= 0.0 && a * b == c * d
    ensures a >= 0.0 && (a == 0.0 <==> d == 0.0)
  {
    if d > 0.0 {
      PositiveTimes(c, d);
    }
    if a < 0.0 {
      PositiveTimes(-a, b);
    } else if a > 0.0 {
      PositiveTimes(a, b);
    }
  }

  /** The knee and the index of one arm. */
  lemma IndexSandwich(shares: Shares, c: nat)
    requires Complete(shares) && shares != [] && Crosses(shares, c)
    ensures c == 0 ==> KneeAt(c) == 0.0 && IndexAt(shares, c) == RUNGS[0]
    ensures c == Pairs(shares) ==> KneeAt(c) == IndexAt(shares, c) == RUNGS[c - 1]
    ensures 0 < c < Pairs(shares) ==> KneeAt(c) <= IndexAt(shares, c) < RUNGS[c]
    ensures 0 < c < Pairs(shares) ==> (KneeAt(c) == IndexAt(shares, c) <==> shares[c - 1].value == SHARE_BAR)
  {
    if 0 < c < Pairs(shares) {
      RungsRise(c - 1, c);
      InterpolatedBetween(RUNGS[c - 1], shares[c - 1].value, RUNGS[c], shares[c].value);
    }
  }

  // ----- less load never lowers either -----

  ghost predicate Below(lower: Shares, shares: Shares) {
    |lower| == |shares| && forall i | 0 <= i < Pairs(shares) && lower[i].Some? && shares[i].Some? ::
      lower[i].value <= shares[i].value
  }

  lemma LowerCrossesLater(lower: Shares, shares: Shares, c': nat, c: nat)
    requires Below(lower, shares) && Crosses(lower, c') && Crosses(shares, c)
    ensures c <= c'
  {
  }

  /** On one rung interval the crossing moves right when both shares fall. */
  lemma InterpolatedMoves(x0: real, s0: real, x1: real, s1: real, r0: real, r1: real)
    requires x0 < x1 && s0 <= SHARE_BAR < s1 && r0 <= SHARE_BAR < r1 && r0 <= s0 && r1 <= s1
    ensures Interpolated(x0, s0, x1, s1) <= Interpolated(x0, r0, x1, r1)
  {
    var a, b, a', b' := SHARE_BAR - s0, s1 - SHARE_BAR, SHARE_BAR - r0, r1 - SHARE_BAR;
    RatioMoves(x1 - x0, a, b, a', b');
    assert s1 - s0 == a + b && r1 - r0 == a' + b';
  }

  lemma RatioMoves(w: real, a: real, b: real, a': real, b': real)
    requires w > 0.0 && 0.0 <= a <= a' && 0.0 < b' <= b
    ensures Ratio(Times(w, a), a + b) <= Ratio(Times(w, a'), a' + b')
  {
    var p, q := Ratio(Times(w, a), a + b), Ratio(Times(w, a'), a' + b');
    QuotientUnique(Times(w, a), a + b, p);
    QuotientUnique(Times(w, a'), a' + b', q);
    CrossProducts(a, b, a', b');
    ScaledProducts(w, a, a + b, a', a' + b', p, q);
  }

  lemma CrossProducts(a: real, b: real, a': real, b': real)
    requires 0.0 <= a <= a' && 0.0 < b' <= b
    ensures a * (a' + b') <= a' * (a + b)
  {
    NonNegativeTimes(a' - a, b);
    NonNegativeTimes(a, b - b');
  }

  lemma ScaledProducts(w: real, a: real, d: real, a': real, d': real, p: real, q: real)
    requires w > 0.0 && d > 0.0 && d' > 0.0 && p * d == Times(w, a) && q * d' == Times(w, a') && a * d' <= a' * d
    ensures p <= q
  {
    assert (p - q) * d * d' == (p * d) * d' - (q * d') * d;
    assert (p * d) * d' - (q * d') * d == w * (a * d' - a' * d);
    NonNegativeTimes(w, a' * d - a * d');
    NotPositive(p - q, d, d');
  }

  lemma NotPositive(x: real, d: real, d': real)
    requires d > 0.0 && d' > 0.0
    ensures x * d * d' <= 0.0 ==> x <= 0.0
  {
    if x > 0.0 {
      PositiveTimes(x, d);
      PositiveTimes(x * d, d');
    }
  }

  lemma KneeRises(c: nat, c': nat)
    requires c < c' <= |RUNGS|
    ensures KneeAt(c) < KneeAt(c')
  {
    if c > 0 {
      RungsRise(c - 1, c' - 1);
    }
  }

  /** Pointwise lower shares never lower the knee, whichever later rungs are missing, nor the index where there is
      one. */
  lemma LowerSharesNeverLower(lower: Shares, shares: Shares, c': nat, c: nat)
    requires Below(lower, shares) && Crosses(lower, c') && Crosses(shares, c)
    ensures KneeAt(c) <= KneeAt(c')
    ensures Complete(lower) && Complete(shares) && shares != [] ==> IndexAt(shares, c) <= IndexAt(lower, c')
  {
    LowerCrossesLater(lower, shares, c', c);
    if c < c' {
      KneeRises(c, c');
    }
    if Complete(lower) && Complete(shares) && shares != [] {
      if c < c' {
        HigherKneeHigherIndex(shares, lower, c, c');
      } else if 0 < c < Pairs(shares) {
        RungsRise(c - 1, c);
        var s0, s1, r0, r1 := shares[c - 1].value, shares[c].value, lower[c - 1].value, lower[c].value;
        InterpolatedMoves(RUNGS[c - 1], s0, RUNGS[c], s1, r0, r1);
      }
    }
  }

  /** An arm with the higher knee has at least the index of the other, a greater one unless the other fails at once. */
  lemma HigherKneeHigherIndex(shares: Shares, other: Shares, c: nat, c': nat)
    requires Complete(shares) && Complete(other) && shares != [] && |other| == |shares|
    requires Crosses(shares, c) && Crosses(other, c') && c < c'
    ensures KneeAt(c) < KneeAt(c')
    ensures IndexAt(shares, c) <= IndexAt(other, c') && (c > 0 ==> IndexAt(shares, c) < IndexAt(other, c'))
  {
    hide Interpolated;
    KneeRises(c, c');
    IndexSandwich(shares, c);
    IndexSandwich(other, c');
    if c < c' - 1 {
      RungsRise(c, c' - 1);
    }
  }
}
