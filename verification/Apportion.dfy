/** Largest-remainder quotas. Keys are numbered in the order of their printed names, which breaks ties. */
module Apportion {
  import opened Reals
  import opened Sorting
  import opened Sums
  import opened Wrappers

  function Weight(w: seq<real>): nat -> real {
    (k: nat) => if k < |w| then w[k] else 0.0
  }

  function WeightTotal(w: seq<real>): real {
    Sum(Range(|w|), Weight(w))
  }

  /** Weights as the plan has them: none negative, and not all zero unless there is no key at all. */
  ghost predicate Weights(w: seq<real>) {
    (forall k | 0 <= k < |w| :: w[k] >= 0.0) && (w != [] ==> WeightTotal(w) > 0.0)
  }

  /** The proportional share of key k. */
  function Share(total: int, w: seq<real>): nat -> real {
    (k: nat) => if WeightTotal(w) == 0.0 then 0.0 else Times(total as real / WeightTotal(w), Weight(w)(k))
  }

  /** int(x): toward zero. */
  function Trunc(x: real): int {
    if x >= 0.0 then x.Floor else -((-x).Floor)
  }

  function Whole(total: int, w: seq<real>): nat -> int {
    (k: nat) => Trunc(Share(total, w)(k))
  }

  function Rest(total: int, w: seq<real>): nat -> real {
    (k: nat) => Share(total, w)(k) - Whole(total, w)(k) as real
  }

  /** Largest remainder first, then the first key. */
  function ByRest(total: int, w: seq<real>): (nat, nat) -> bool {
    (j: nat, k: nat) => Rest(total, w)(j) > Rest(total, w)(k) || (Rest(total, w)(j) == Rest(total, w)(k) && j <= k)
  }

  function Ranking(total: int, w: seq<real>): (order: seq<nat>)
    ensures multiset(order) == multiset(Range(|w|)) && |order| == |w|
    ensures forall i | 0 <= i < |order| :: order[i] < |w|
    ensures forall k | 0 <= k < |w| :: k in order
    ensures SortedBy(order, ByRest(total, w))
  {
    var order := Sort(Range(|w|), ByRest(total, w));
    ArrangementOfRange(order, |w|);
    order
  }

  function WholeTotal(total: int, w: seq<real>, n: nat): int {
    if n == 0 then 0 else WholeTotal(total, w, n - 1) + Whole(total, w)(n - 1)
  }

  /** The units left over after every key has received the whole part of its share. */
  function Leftover(total: int, w: seq<real>): int {
    total - WholeTotal(total, w, |w|)
  }

  /** How many of n elements the slice [: x] keeps; a negative x counts from the end. */
  function SliceLength(x: int, n: nat): (m: nat)
    ensures m <= n
    ensures m == x <==> 0 <= x <= n
  {
    if x > n then n else if x >= 0 then x else if n + x >= 0 then n + x else 0
  }

  /** The keys that receive one more unit. */
  function Favoured(total: int, w: seq<real>): seq<nat> {
    Ranking(total, w)[..SliceLength(Leftover(total, w), |w|)]
  }

  function Quota(total: int, w: seq<real>): nat -> int {
    (k: nat) => Whole(total, w)(k) + if k in Favoured(total, w) then 1 else 0
  }

  // ----- the order of the keys -----

  lemma {:induction false} RangeOnce(n: nat, k: nat)
    ensures multiset(Range(n))[k] == if k < n then 1 else 0
  {
    if n > 0 {
      assert Range(n) == Range(n - 1) + [n - 1];
      RangeOnce(n - 1, k);
    }
  }

  lemma Split(order: seq<nat>, m: nat, k: nat)
    requires m <= |order|
    ensures multiset(order)[k] == multiset(order[..m])[k] + multiset(order[m..])[k]
  {
    assert order == order[..m] + order[m..];
  }

  /** No key is in both parts of the ranking. */
  lemma RankedOnce(total: int, w: seq<real>, m: nat, k: nat)
    requires m <= |w|
    ensures !(k in Ranking(total, w)[..m] && k in Ranking(total, w)[m..])
  {
    var order := Ranking(total, w);
    RangeOnce(|w|, k);
    Split(order, m, k);
    assert k in order[..m] <==> k in multiset(order[..m]);
    assert k in order[m..] <==> k in multiset(order[m..]);
  }

  // ----- the shares -----

  lemma ShareParts(total: nat, w: seq<real>, k: nat)
    requires Weights(w) && k < |w|
    ensures Share(total, w)(k) >= 0.0 && Whole(total, w)(k) >= 0
    ensures 0.0 <= Rest(total, w)(k) < 1.0
  {
    var unit := total as real / WeightTotal(w);
    assert unit * WeightTotal(w) == total as real;
    NonNegativeQuotient(total as real, WeightTotal(w));
    NonNegativeTimes(unit, w[k]);
  }

  /** The shares of all keys add up to the total. */
  lemma SharesTotal(total: nat, w: seq<real>)
    requires Weights(w) && w != []
    ensures Sum(Range(|w|), Share(total, w)) == total as real
  {
    var z := WeightTotal(w);
    assert forall k: nat :: Share(total, w)(k) == Times(total as real / z, Weight(w)(k));
    hide Times;
    SumScale(Range(|w|), Share(total, w), total as real / z, Weight(w));
    TimesQuotient(total as real, z);
  }

  function WholeReal(total: int, w: seq<real>): nat -> real {
    (k: nat) => Whole(total, w)(k) as real
  }

  lemma {:induction false} WholeTotalIsSum(total: int, w: seq<real>, n: nat)
    ensures WholeTotal(total, w, n) as real == Sum(Range(n), WholeReal(total, w))
  {
    if n > 0 {
      assert Range(n) == Range(n - 1) + [n - 1];
      WholeTotalIsSum(total, w, n - 1);
      SumSnoc<nat>(Range(n - 1), n - 1, WholeReal(total, w));
    }
  }

  /** The leftover is the sum of the remainders, so there are never more units left over than keys. */
  lemma LeftoverIsRests(total: nat, w: seq<real>)
    requires Weights(w) && w != []
    ensures Sum(Range(|w|), Rest(total, w)) == Leftover(total, w) as real
    ensures 0 <= Leftover(total, w) <= |w|
  {
    SharesTotal(total, w);
    WholeTotalIsSum(total, w, |w|);
    SumPlus(Range(|w|), Share(total, w), WholeReal(total, w), Rest(total, w));
    forall k | k in Range(|w|)
      ensures 0.0 <= Rest(total, w)(k) <= Constant<nat>(1.0)(k)
    {
      ShareParts(total, w, k);
    }
    hide Rest, Share, WholeReal;
    SumNonNegative(Range(|w|), Rest(total, w));
    SumMonotone(Range(|w|), Rest(total, w), Constant(1.0));
    SumConstant(Range(|w|), Constant(1.0), 1.0);
  }

  /** The ranking is by remainder: after a key without one there are only keys without one. */
  lemma RestsEnd(total: nat, w: seq<real>, p: nat, i: nat)
    requires Weights(w) && p <= i < |w| && Rest(total, w)(Ranking(total, w)[p]) == 0.0
    ensures Rest(total, w)(Ranking(total, w)[i]) == 0.0
  {
    var order := Ranking(total, w);
    ShareParts(total, w, order[i]);
    RankedOrder(total, w, p, i);
  }

  lemma RestsSides(total: nat, w: seq<real>, p: nat)
    requires Weights(w) && p < |w| && Rest(total, w)(Ranking(total, w)[p]) == 0.0
    ensures forall k | k in Ranking(total, w)[p..] :: Rest(total, w)(k) == 0.0
    ensures forall k | k in Ranking(total, w)[..p] :: Rest(total, w)(k) <= Constant<nat>(1.0)(k)
  {
    var order := Ranking(total, w);
    forall i | p <= i < |w|
      ensures Rest(total, w)(order[i]) == 0.0
    {
      RestsEnd(total, w, p, i);
    }
    forall i | 0 <= i < p
      ensures Rest(total, w)(order[i]) <= Constant<nat>(1.0)(order[i])
    {
      ShareParts(total, w, order[i]);
    }
  }

  lemma RestsBound(total: nat, w: seq<real>, p: nat)
    requires Weights(w) && p < |w| && Rest(total, w)(Ranking(total, w)[p]) == 0.0
    ensures Sum(Ranking(total, w), Rest(total, w)) <= p as real
  {
    hide Rest, Ranking, Weights;
    var order, rest := Ranking(total, w), Rest(total, w);
    RestsSides(total, w, p);
    PrefixSum(order, p, rest);
    SumMonotone(order[..p], rest, Constant(1.0));
    SumConstant(order[..p], Constant(1.0), 1.0);
  }

  lemma PrefixSum(order: seq<nat>, p: nat, f: nat -> real)
    requires p <= |order| && forall k | k in order[p..] :: f(k) == 0.0
    ensures Sum(order, f) == Sum(order[..p], f)
  {
    hide Sum;
    var front, back := order[..p], order[p..];
    assert order == front + back;
    assert forall k | k in back :: f(k) == 0.0;
    SumConstant<nat>(back, f, 0.0);
    SumAppend(front, back, f);
  }

  /** Every favoured key has a remainder: a unit is never given to a key whose share is whole. */
  lemma FavouredHaveRest(total: nat, w: seq<real>, p: nat)
    requires Weights(w) && w != [] && p < Leftover(total, w)
    ensures p < |w| && Rest(total, w)(Ranking(total, w)[p]) > 0.0
  {
    LeftoverIsRests(total, w);
    var order := Ranking(total, w);
    ShareParts(total, w, order[p]);
    SumPermutation(order, Range(|w|), Rest(total, w));
    if Rest(total, w)(order[p]) == 0.0 {
      RestsBound(total, w, p);
    }
  }

  // ----- the quotas -----

  function Bonus(total: int, w: seq<real>): nat -> real {
    (k: nat) => if k in Favoured(total, w) then 1.0 else 0.0
  }

  lemma BonusTotal(total: int, w: seq<real>)
    ensures Sum(Range(|w|), Bonus(total, w)) == |Favoured(total, w)| as real
  {
    hide Ranking, Bonus, Favoured;
    var order, m := Ranking(total, w), |Favoured(total, w)|;
    BonusOf(total, w);
    SumPermutation(order, Range(|w|), Bonus(total, w));
    PrefixSum(order, m, Bonus(total, w));
    SumConstant(order[..m], Bonus(total, w), 1.0);
  }

  lemma BonusOf(total: int, w: seq<real>)
    ensures |Favoured(total, w)| <= |w|
    ensures forall k | k in Ranking(total, w)[..|Favoured(total, w)|] :: Bonus(total, w)(k) == 1.0
    ensures forall k | k in Ranking(total, w)[|Favoured(total, w)|..] :: Bonus(total, w)(k) == 0.0
  {
    var order, m := Ranking(total, w), |Favoured(total, w)|;
    assert Favoured(total, w) == order[..m];
    forall k | k in order[m..]
      ensures k !in order[..m]
    {
      RankedOnce(total, w, m, k);
    }
  }

  function QuotaReal(total: int, w: seq<real>): nat -> real {
    (k: nat) => Quota(total, w)(k) as real
  }

  lemma QuotaParts(total: int, w: seq<real>, k: nat)
    ensures QuotaReal(total, w)(k) == WholeReal(total, w)(k) + Bonus(total, w)(k)
  {
    hide Favoured;
    var x := Whole(total, w)(k);
    assert (x + 1) as real == x as real + 1.0;
    assert Quota(total, w)(k) == x + if k in Favoured(total, w) then 1 else 0;
  }

  /** For any weights at all: the quotas add up to the whole parts and one unit for every favoured key. */
  lemma QuotasSumAny(total: int, w: seq<real>)
    ensures Sum(Range(|w|), QuotaReal(total, w)) == (WholeTotal(total, w, |w|) + |Favoured(total, w)|) as real
  {
    BonusTotal(total, w);
    WholeTotalIsSum(total, w, |w|);
    forall k | k in Range(|w|)
      ensures QuotaReal(total, w)(k) == WholeReal(total, w)(k) + Bonus(total, w)(k)
    {
      QuotaParts(total, w, k);
    }
    hide QuotaReal, WholeReal, Bonus, Favoured;
    SumPlus(Range(|w|), QuotaReal(total, w), WholeReal(total, w), Bonus(total, w));
    assert (WholeTotal(total, w, |w|) + |Favoured(total, w)|) as real
        == WholeTotal(total, w, |w|) as real + |Favoured(total, w)| as real;
  }

  /** With weights of both signs that is the total exactly if the units left over are neither negative nor more than
      the keys. */
  lemma QuotasSumExactly(total: int, w: seq<real>)
    ensures Sum(Range(|w|), QuotaReal(total, w)) == total as real <==> 0 <= Leftover(total, w) <= |w|
  {
    hide Ranking, QuotaReal, Share;
    QuotasSumAny(total, w);
    assert |Favoured(total, w)| == SliceLength(Leftover(total, w), |w|);
  }

  /** Weights -1, -1 and 4 and a total of 1: the whole parts are 0, 0 and 2, one too many, and the slice of -1 then
      hands out two further units. */
  lemma SignedWeightsCanMiss()
    ensures var w := [-1.0, -1.0, 4.0];
      WeightTotal(w) > 0.0 && Leftover(1, w) == -1 && Sum(Range(|w|), QuotaReal(1, w)) == 4.0
  {
    var w := [-1.0, -1.0, 4.0];
    SignedWhole(w);
    hide Ranking, QuotaReal, Share, WholeTotal, Sum;
    assert SliceLength(-1, |w|) == 2;
    QuotasSumAny(1, w);
  }

  lemma SignedWhole(w: seq<real>)
    requires |w| == 3 && w[0] == w[1] == -1.0 && w[2] == 4.0
    ensures WeightTotal(w) == 2.0 && WholeTotal(1, w, 3) == 2
  {
    var f := Weight(w);
    assert Range(3) == [0, 1, 2] && [0, 1, 2][1..] == [1, 2] && [1, 2][1..] == [2] && [2][1..] == [];
    assert Sum<nat>([2], f) == f(2) + Sum<nat>([], f);
    assert Sum<nat>([1, 2], f) == f(1) + Sum<nat>([2], f);
    assert Sum<nat>([0, 1, 2], f) == f(0) + Sum<nat>([1, 2], f);
    assert Share(1, w)(0) == -0.5 && Share(1, w)(1) == -0.5 && Share(1, w)(2) == 2.0;
    assert Whole(1, w)(0) == 0 && Whole(1, w)(1) == 0 && Whole(1, w)(2) == 2;
    assert WholeTotal(1, w, 1) == 0 && WholeTotal(1, w, 2) == 0 && WholeTotal(1, w, 3) == 2;
  }

  /** The quotas add up to the total. */
  lemma QuotasSum(total: nat, w: seq<real>)
    requires Weights(w) && w != []
    ensures Sum(Range(|w|), QuotaReal(total, w)) == total as real
  {
    LeftoverIsRests(total, w);
    QuotasSumExactly(total, w);
  }

  lemma FavouredPosition(total: nat, w: seq<real>, k: nat) returns (p: nat)
    requires Weights(w) && w != [] && k in Favoured(total, w)
    ensures p < Leftover(total, w) && p < |w| && Ranking(total, w)[p] == k
  {
    LeftoverIsRests(total, w);
    var i :| 0 <= i < |Favoured(total, w)| && Favoured(total, w)[i] == k;
    p := i;
  }

  lemma {:induction false} WeightsAreSum(w: seq<real>, n: nat)
    requires n <= |w|
    ensures Sum(Range(n), Weight(w)) == Sum(w[..n], Self())
  {
    if n > 0 {
      assert Range(n) == Range(n - 1) + [n - 1];
      assert w[..n] == w[..n - 1] + [w[n - 1]];
      WeightsAreSum(w, n - 1);
      SumSnoc<nat>(Range(n - 1), n - 1, Weight(w));
      SumSnoc(w[..n - 1], w[n - 1], Self());
    }
  }

  /** A share is to the total as the key's weight is to all weights. */
  lemma ShareIsProportional(total: int, w: seq<real>, k: nat)
    requires Sum(w, Self()) != 0.0 && k < |w|
    ensures Times(Share(total, w)(k), Sum(w, Self())) == Times(total as real, w[k])
  {
    WeightsAreSum(w, |w|);
    assert w[..|w|] == w;
    hide Sum, Times;
    PartOfTotal(total as real, Sum(w, Self()), w[k]);
    assert Weight(w)(k) == w[k];
  }

  lemma PartOfTotal(t: real, z: real, v: real)
    requires z != 0.0
    ensures Times(Times(t / z, v), z) == Times(t, v)
  {
    var u := t / z;
    assert u * z == t;
    assert t * v == (u * v) * z;
  }

  /** Every quota is less than one unit away from the proportional share. */
  lemma QuotaNearShare(total: nat, w: seq<real>, k: nat)
    requires Weights(w) && k < |w|
    ensures Quota(total, w)(k) >= 0
    ensures -1.0 < Quota(total, w)(k) as real - Share(total, w)(k) < 1.0
    ensures Sum(w, Self()) > 0.0 && Times(Share(total, w)(k), Sum(w, Self())) == Times(total as real, w[k])
  {
    WeightsAreSum(w, |w|);
    assert w[..|w|] == w;
    ShareIsProportional(total, w, k);
    ShareParts(total, w, k);
    if k in Favoured(total, w) {
      var p := FavouredPosition(total, w, k);
      FavouredHaveRest(total, w, p);
    }
  }

  lemma Difference(unit: real, x: real, y: real)
    ensures Times(unit, x - y) == Times(unit, x) - Times(unit, y)
  {
  }

  lemma LargerShare(total: nat, w: seq<real>, j: nat, k: nat)
    requires Weights(w) && j < |w| && k < |w| && w[j] >= w[k]
    ensures Share(total, w)(j) >= Share(total, w)(k)
  {
    var unit := total as real / WeightTotal(w);
    NonNegativeQuotient(total as real, WeightTotal(w));
    NonNegativeTimes(unit, w[j] - w[k]);
    Difference(unit, w[j], w[k]);
    hide Times;
    assert Weight(w)(j) == w[j] && Weight(w)(k) == w[k];
  }

  /** A larger weight never gets less, and between equal weights the first key never gets less. */
  lemma QuotaMonotone(total: nat, w: seq<real>, j: nat, k: nat)
    requires Weights(w) && j < |w| && k < |w|
    requires w[j] > w[k] || (w[j] == w[k] && j < k)
    ensures Quota(total, w)(j) >= Quota(total, w)(k)
  {
    LargerShare(total, w, j, k);
    if w[j] == w[k] {
      LargerShare(total, w, k, j);
    }
    if Whole(total, w)(j) == Whole(total, w)(k) && k in Favoured(total, w) {
      if w[j] > w[k] {
        FavouredStrictly(total, w, j, k);
      }
      FavouredFirst(total, w, j, k);
    }
  }

  /** A key that is favoured has a share above zero, and then a larger weight has a strictly larger share. */
  lemma FavouredStrictly(total: nat, w: seq<real>, j: nat, k: nat)
    requires Weights(w) && j < |w| && k < |w| && w[j] > w[k] && k in Favoured(total, w)
    ensures Share(total, w)(j) > Share(total, w)(k)
  {
    var p := FavouredPosition(total, w, k);
    FavouredHaveRest(total, w, p);
    ShareParts(total, w, k);
    var unit := total as real / WeightTotal(w);
    NonNegativeQuotient(total as real, WeightTotal(w));
    assert Share(total, w)(k) == Times(unit, w[k]) && Share(total, w)(j) == Times(unit, w[j]);
    StrictProduct(unit, w[j], w[k]);
  }

  lemma StrictProduct(unit: real, x: real, y: real)
    requires unit >= 0.0 && Times(unit, y) != 0.0 && x > y
    ensures Times(unit, x) > Times(unit, y)
  {
    Difference(unit, x, y);
    ZeroProduct(y);
    PositiveTimes(unit, x - y);
  }

  lemma ZeroProduct(y: real)
    ensures Times(0.0, y) == 0.0
  {
  }

  lemma FavouredFirst(total: nat, w: seq<real>, j: nat, k: nat)
    requires Weights(w) && w != [] && j < |w| && k in Favoured(total, w)
    requires Rest(total, w)(j) > Rest(total, w)(k) || (Rest(total, w)(j) == Rest(total, w)(k) && j < k)
    ensures j in Favoured(total, w)
  {
    var p := FavouredPosition(total, w, k);
    var order := Ranking(total, w);
    assert j in order;
    var i :| 0 <= i < |order| && order[i] == j;
    RankedOrder(total, w, p, i);
    LeftoverIsRests(total, w);
    assert order[i] == Favoured(total, w)[i];
  }

  lemma RankedOrder(total: int, w: seq<real>, p: nat, i: nat)
    requires p < |w| && i < |w|
    ensures var j, k := Ranking(total, w)[p], Ranking(total, w)[i];
      p < i ==> Rest(total, w)(j) > Rest(total, w)(k) || (Rest(total, w)(j) == Rest(total, w)(k) && j <= k)
  {
    var order := Ranking(total, w);
    assert p < i ==> ByRest(total, w)(order[p], order[i]);
  }

  // ----- no other whole quotas are nearer -----

  function SquaredMiss(q: int, s: real): real {
    Times(q as real - s, q as real - s)
  }

  /** The squared distance of every quota from its share. */
  function Miss(total: int, w: seq<real>, q: nat -> int): nat -> real {
    (k: nat) => SquaredMiss(q(k), Share(total, w)(k))
  }

  function AsReal(q: nat -> int): nat -> real {
    (k: nat) => q(k) as real
  }

  /** Remainders from r on earned an extra unit, those up to r did not. */
  ghost predicate Separates(total: int, w: seq<real>, r: real) {
    0.0 <= r <= 1.0
    && forall k | 0 <= k < |w| :: if k in Favoured(total, w) then Rest(total, w)(k) >= r else Rest(total, w)(k) <= r
  }

  /** The least remainder that earned an extra unit, or 1. */
  lemma Threshold(total: nat, w: seq<real>) returns (r: real)
    requires Weights(w) && w != []
    ensures Separates(total, w, r)
  {
    LeftoverIsRests(total, w);
    var order, m := Ranking(total, w), Leftover(total, w);
    if m == 0 {
      r := 1.0;
      forall k | 0 <= k < |w|
        ensures Rest(total, w)(k) <= r
      {
        ShareParts(total, w, k);
      }
    } else {
      r := Rest(total, w)(order[m - 1]);
      ShareParts(total, w, order[m - 1]);
      hide Rest, Ranking, Weights, Leftover;
      forall k | 0 <= k < |w|
        ensures if k in Favoured(total, w) then Rest(total, w)(k) >= r else Rest(total, w)(k) <= r
      {
        RankedAround(total, w, m, k);
      }
    }
  }

  lemma RankedAround(total: nat, w: seq<real>, m: nat, k: nat)
    requires Weights(w) && w != [] && 0 < m == Leftover(total, w) <= |w| && k < |w|
    ensures var r := Rest(total, w)(Ranking(total, w)[m - 1]);
      if k in Favoured(total, w) then Rest(total, w)(k) >= r else Rest(total, w)(k) <= r
  {
    var order := Ranking(total, w);
    assert k in order;
    var i :| 0 <= i < |order| && order[i] == k;
    assert Favoured(total, w) == order[..m];
    if i < m {
      assert order[..m][i] == k;
    } else {
      assert k in order[m..];
      RankedOnce(total, w, m, k);
    }
    RankedOrder(total, w, i, m - 1);
    RankedOrder(total, w, m - 1, i);
  }

  /** Away from its quota a key misses its share by more, at the common rate 1 - 2 r or faster. */
  lemma MissesMore(s: real, q: int, x: int, r: real, favoured: bool)
    requires 0.0 <= r <= 1.0
    requires var rest := s - (if favoured then q - 1 else q) as real;
      0.0 <= rest < 1.0 && if favoured then rest >= r else rest <= r
    ensures SquaredMiss(x, s) - SquaredMiss(q, s) >= Steps(1.0 - 2.0 * r, x - q)
  {
    var d := q as real - s;
    var n: int := x - q;
    var y := n as real;
    assert x as real - s == d + y;
    assert (d + y) * (d + y) - d * d == y * (2.0 * d + y);
    var c := 2.0 * d + y - (1.0 - 2.0 * r);
    assert y * (2.0 * d + y) - (1.0 - 2.0 * r) * y == y * c;
    if n >= 1 {
      NonNegativeTimes(y, c);
    } else if n <= -1 {
      NonNegativeTimes(-y, -c);
      assert (-y) * (-c) == y * c;
    }
  }

  function Gain(total: int, w: seq<real>, q: nat -> int, x: nat -> int): nat -> real {
    (k: nat) => SquaredMiss(x(k), Share(total, w)(k)) - SquaredMiss(q(k), Share(total, w)(k))
  }

  function Steps(rate: real, n: int): real {
    Times(rate, n as real)
  }

  function Swap(rate: real, q: nat -> int, x: nat -> int): nat -> real {
    (k: nat) => Steps(rate, x(k) - q(k))
  }

  lemma SwapsCancel(n: nat, rate: real, q: nat -> int, x: nat -> int)
    requires Sum(Range(n), AsReal(x)) == Sum(Range(n), AsReal(q))
    ensures Sum(Range(n), Swap(rate, q, x)) == 0.0
  {
    var all := Range(n);
    var moved := (k: nat) => (x(k) - q(k)) as real;
    forall k
      ensures AsReal(x)(k) == AsReal(q)(k) + moved(k)
    {
    }
    SumPlus(all, AsReal(x), AsReal(q), moved);
    SumScale(all, Swap(rate, q, x), rate, moved);
    Distribute(rate, 0.0, 0.0);
  }

  lemma GainIs(total: int, w: seq<real>, q: nat -> int, x: nat -> int, rate: real, k: nat)
    ensures var s := Share(total, w)(k); Gain(total, w, q, x)(k) == SquaredMiss(x(k), s) - SquaredMiss(q(k), s)
    ensures Swap(rate, q, x)(k) == Steps(rate, x(k) - q(k))
  {
    hide SquaredMiss, Share, Steps;
  }

  lemma QuotaIs(total: int, w: seq<real>, k: nat)
    ensures Quota(total, w)(k) == Whole(total, w)(k) + if k in Favoured(total, w) then 1 else 0
    ensures Rest(total, w)(k) == Share(total, w)(k) - Whole(total, w)(k) as real
  {
    hide Favoured, Share, Whole;
  }

  lemma GainAt(total: nat, w: seq<real>, x: nat -> int, r: real, k: nat)
    requires Weights(w) && w != [] && k < |w| && 0.0 <= r <= 1.0
    requires if k in Favoured(total, w) then Rest(total, w)(k) >= r else Rest(total, w)(k) <= r
    ensures Swap(1.0 - 2.0 * r, Quota(total, w), x)(k) <= Gain(total, w, Quota(total, w), x)(k)
  {
    ShareParts(total, w, k);
    QuotaIs(total, w, k);
    var s, q, favoured := Share(total, w)(k), Quota(total, w)(k), k in Favoured(total, w);
    GainIs(total, w, Quota(total, w), x, 1.0 - 2.0 * r, k);
    hide *;
    assert (q - 1) as real == q as real - 1.0;
    MissesMore(s, q, x(k), r, favoured);
  }

  ghost predicate SwapsBelow(total: int, w: seq<real>, q: nat -> int, x: nat -> int, rate: real) {
    forall k | k in Range(|w|) :: Swap(rate, q, x)(k) <= Gain(total, w, q, x)(k)
  }

  lemma NearestByRate(total: int, w: seq<real>, q: nat -> int, x: nat -> int, rate: real)
    requires Sum(Range(|w|), AsReal(x)) == Sum(Range(|w|), AsReal(q))
    requires SwapsBelow(total, w, q, x, rate)
    ensures Sum(Range(|w|), Miss(total, w, q)) <= Sum(Range(|w|), Miss(total, w, x))
  {
    var all := Range(|w|);
    forall k | k in all
      ensures Miss(total, w, x)(k) == Miss(total, w, q)(k) + Gain(total, w, q, x)(k)
    {
    }
    assert forall k | k in all :: Swap(rate, q, x)(k) <= Gain(total, w, q, x)(k);
    hide *;
    SwapsCancel(|w|, rate, q, x);
    SumMonotone(all, Swap(rate, q, x), Gain(total, w, q, x));
    SumPlus(all, Miss(total, w, x), Miss(total, w, q), Gain(total, w, q, x));
  }

  lemma NearestIfSeparated(total: nat, w: seq<real>, x: nat -> int, r: real)
    requires Weights(w) && w != [] && Separates(total, w, r)
    requires Sum(Range(|w|), AsReal(x)) == Sum(Range(|w|), AsReal(Quota(total, w)))
    ensures Sum(Range(|w|), Miss(total, w, Quota(total, w))) <= Sum(Range(|w|), Miss(total, w, x))
  {
    hide *;
    var rate := 1.0 - 2.0 * r;
    GainsAll(total, w, x, r);
    NearestByRate(total, w, Quota(total, w), x, rate);
  }

  /** The quotas are as near to the shares as whole quotas with the same total can be, in squared distance. */
  lemma QuotasAreNearest(total: nat, w: seq<real>, x: nat -> int)
    requires Weights(w) && w != [] && Sum(Range(|w|), AsReal(x)) == total as real
    ensures Sum(Range(|w|), Miss(total, w, Quota(total, w))) <= Sum(Range(|w|), Miss(total, w, x))
  {
    QuotasSum(total, w);
    QuotasAsReal(total, w);
    hide *;
    var r := Threshold(total, w);
    NearestIfSeparated(total, w, x, r);
  }

  lemma GainsAll(total: nat, w: seq<real>, x: nat -> int, r: real)
    requires Weights(w) && w != [] && Separates(total, w, r)
    ensures SwapsBelow(total, w, Quota(total, w), x, 1.0 - 2.0 * r)
  {
    hide Quota, Rest, Favoured, Weights, Share, Swap, Gain;
    forall k | k in Range(|w|)
      ensures Swap(1.0 - 2.0 * r, Quota(total, w), x)(k) <= Gain(total, w, Quota(total, w), x)(k)
    {
      GainAt(total, w, x, r, k);
    }
  }

  lemma QuotasAsReal(total: int, w: seq<real>)
    ensures Sum(Range(|w|), AsReal(Quota(total, w))) == Sum(Range(|w|), QuotaReal(total, w))
  {
    hide Quota;
    SumCongruent(Range(|w|), AsReal(Quota(total, w)), QuotaReal(total, w));
  }

  // ----- the loop -----

  function Quotas(total: int, w: seq<real>): (q: seq<int>)
    ensures |q| == |w| && forall k | 0 <= k < |w| :: q[k] == Quota(total, w)(k)
  {
    seq(|w|, k requires 0 <= k < |w| => Quota(total, w)(k))
  }

  lemma {:induction false} TotalIsSum(q: seq<int>, f: nat -> real, n: nat)
    requires n <= |q| && forall k | 0 <= k < n :: f(k) == q[k] as real
    ensures Total(q[..n]) as real == Sum(Range(n), f)
  {
    if n > 0 {
      assert Range(n) == Range(n - 1) + [n - 1];
      assert q[..n][..n - 1] == q[..n - 1];
      TotalIsSum(q, f, n - 1);
      SumSnoc<nat>(Range(n - 1), n - 1, f);
    }
  }

  /** Nothing is lost unless there is nobody to give it to. */
  lemma QuotasTotal(total: nat, w: seq<real>)
    requires Weights(w)
    ensures Total(Quotas(total, w)) == total <==> w != [] || total == 0
    ensures w == [] ==> Quotas(total, w) == []
  {
    var q := Quotas(total, w);
    if w != [] {
      QuotasSum(total, w);
      TotalIsSum(q, QuotaReal(total, w), |w|);
      assert q[..|w|] == q;
    }
  }

  /** The whole parts, with one more unit for the keys of a list. */
  ghost predicate Granted(total: int, w: seq<real>, out: seq<int>, keys: seq<nat>) {
    |out| == |w| && forall j | 0 <= j < |w| :: out[j] == Whole(total, w)(j) + if j in keys then 1 else 0
  }

  lemma GrantNext(total: int, w: seq<real>, out: seq<int>, i: nat)
    requires i < |w| && Granted(total, w, out, Ranking(total, w)[..i])
    ensures var k := Ranking(total, w)[i];
      Granted(total, w, out[k := out[k] + 1], Ranking(total, w)[..i + 1])
  {
    var order := Ranking(total, w);
    var k := order[i];
    assert k in order[i..];
    RankedOnce(total, w, i, k);
    assert order[..i + 1] == order[..i] + [k];
  }

  /** The whole part of every share, and their sum. */
  method WholeUnits(total: int, weights: seq<real>) returns (out: array<int>, given: int)
    requires weights == [] || WeightTotal(weights) != 0.0
    ensures fresh(out) && Granted(total, weights, out[..], []) && given == WholeTotal(total, weights, |weights|)
  {
    hide Whole;
    out := new int[|weights|](k requires k >= 0 => Whole(total, weights)(k));
    given := 0;
    for k := 0 to |weights|
      invariant given == WholeTotal(total, weights, k)
    {
      given := given + out[k];
    }
  }

  /** Fails exactly if there is a share to compute and the weights sum to zero. */
  method LargestRemainder(total: int, weights: seq<real>) returns (r: Result<seq<int>>)
    ensures r.Err? <==> weights != [] && WeightTotal(weights) == 0.0
    ensures r.Ok? ==> r.value == Quotas(total, weights)
  {
    hide Whole, Share, Ranking, Quotas;
    if weights != [] && WeightTotal(weights) == 0.0 {
      return Err;
    }
    var out, given := WholeUnits(total, weights);
    var order := Ranking(total, weights);
    var extra := SliceLength(total - given, |order|);
    for i := 0 to extra
      invariant Granted(total, weights, out[..], order[..i])
    {
      GrantNext(total, weights, out[..], i);
      ghost var before := out[..];
      out[order[i]] := out[order[i]] + 1;
      assert out[..] == before[order[i] := before[order[i]] + 1];
    }
    GrantedAll(total, weights, out[..]);
    return Ok(out[..]);
  }

  lemma GrantedAll(total: int, w: seq<real>, out: seq<int>)
    requires Granted(total, w, out, Favoured(total, w))
    ensures out == Quotas(total, w)
  {
  }
}
