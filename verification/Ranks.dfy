/** Average ("mid") ranks: what the three in-place tie-run loops of the scripts compute. */
module Ranks {
  import opened Sums
  import opened Sorting

  /** How many elements lie strictly below v. */
  function Below(s: seq<real>, v: real): nat {
    if s == [] then 0 else (if s[0] < v then 1 else 0) + Below(s[1..], v)
  }

  /** How many elements equal v. */
  function Tied(s: seq<real>, v: real): nat {
    if s == [] then 0 else (if s[0] == v then 1 else 0) + Tied(s[1..], v)
  }

  /** The rank of v among s: everything smaller, plus the middle of the tied block. */
  function Midrank(s: seq<real>, v: real): real {
    Below(s, v) as real + (Tied(s, v) as real + 1.0) / 2.0
  }

  /** One comparison: a win counts 1, a tie a half. */
  function Beat(x: real, y: real): real {
    if x > y then 1.0 else if x == y then 0.5 else 0.0
  }

  function One(x: real, y: real): real {
    1.0
  }

  function Half(x: real): real {
    0.5
  }

  function Tie(x: real, y: real): real {
    if x == y then 1.0 else 0.0
  }

  // ----- the rank as a sum of comparisons -----

  lemma {:induction false} MidrankIsBeats(s: seq<real>, v: real)
    ensures Midrank(s, v) == 0.5 + Sum(s, Row(Beat, v))
  {
    if s != [] {
      MidrankIsBeats(s[1..], v);
      assert Row(Beat, v)(s[0]) == Beat(v, s[0]);
    }
  }

  lemma {:induction false} TiedIsSum(s: seq<real>, v: real)
    ensures Tied(s, v) as real == Sum(s, Row(Tie, v))
  {
    if s != [] {
      TiedIsSum(s[1..], v);
      assert Row(Tie, v)(s[0]) == Tie(v, s[0]);
    }
  }

  /** Permuting the values keeps every value's rank. */
  lemma MidrankPermutation(s: seq<real>, t: seq<real>, v: real)
    requires multiset(s) == multiset(t)
    ensures Midrank(s, v) == Midrank(t, v) && Tied(s, v) == Tied(t, v)
  {
    MidrankIsBeats(s, v);
    MidrankIsBeats(t, v);
    SumPermutation(s, t, Row(Beat, v));
    TiedIsSum(s, v);
    TiedIsSum(t, v);
    SumPermutation(s, t, Row(Tie, v));
  }

  function RankAmong(s: seq<real>): real -> real {
    v => Midrank(s, v)
  }

  /** Comparing a sample with itself: the wins and the losses are the same comparisons. */
  lemma SelfBeats(s: seq<real>)
    ensures DoubleSum(s, s, Beat) == |s| as real * |s| as real / 2.0
  {
    BeatComplement(s, s);
  }

  lemma BeatsPairUp(s: seq<real>, t: seq<real>)
    ensures DoubleSum(s, t, Beat) + DoubleSum(t, s, Beat) == DoubleSum(s, t, One)
  {
    DoubleSumSwap(t, s, Beat);
    forall x, y | x in s && y in t
      ensures One(x, y) == Beat(x, y) + Flip(Beat)(x, y)
    {
      assert Flip(Beat)(x, y) == Beat(y, x);
    }
    DoubleSumPlus(s, t, One, Beat, Flip(Beat));
  }

  /** Every pair is won by one side or shared: the two counts add up to all pairs. */
  lemma BeatComplement(s: seq<real>, t: seq<real>)
    ensures DoubleSum(s, t, Beat) + DoubleSum(t, s, Beat) == |s| as real * |t| as real
  {
    BeatsPairUp(s, t);
    AllPairs(s, t, One);
  }

  lemma HalfSquares(n: real)
    ensures n * 0.5 + n * n / 2.0 == n * (n + 1.0) / 2.0
  {
  }

  lemma RankSumAsBeats(s: seq<real>, t: seq<real>)
    ensures Sum(s, RankAmong(t)) == |s| as real * 0.5 + DoubleSum(s, t, Beat)
  {
    forall x | x in s
      ensures RankAmong(t)(x) == Half(x) + RowSum(Beat, t)(x)
    {
      MidrankIsBeats(t, x);
    }
    SumPlus(s, RankAmong(t), Half, RowSum(Beat, t));
    SumConstant(s, Half, 0.5);
  }

  /** The sum of the ranks of s among s + t, for any sample s and any rest t. */
  lemma RankSum(s: seq<real>, t: seq<real>)
    ensures Sum(s, RankAmong(s + t)) == |s| as real * (|s| as real + 1.0) / 2.0 + DoubleSum(s, t, Beat)
  {
    RankSumAsBeats(s, s + t);
    DoubleSumAppendRight(s, s, t, Beat);
    SelfBeats(s);
    HalfSquares(|s| as real);
  }

  /** The ranks of n values sum to n(n+1)/2, whatever the ties. */
  lemma RanksTotal(s: seq<real>)
    ensures Sum(s, RankAmong(s)) == |s| as real * (|s| as real + 1.0) / 2.0
  {
    RankSum(s, []);
    assert s + [] == s;
    DoubleSumSwap(s, [], Beat);
  }

  /** A larger value never ranks lower, and values share a rank exactly when they are tied. */
  lemma MidrankOrder(s: seq<real>, v: real, w: real)
    requires v in s && w in s
    ensures v < w <==> Midrank(s, v) < Midrank(s, w)
    ensures v == w <==> Midrank(s, v) == Midrank(s, w)
  {
    if v < w {
      MidrankStrict(s, v, w);
    } else if w < v {
      MidrankStrict(s, w, v);
    }
  }

  lemma {:induction false} MidrankStrict(s: seq<real>, v: real, w: real)
    requires v < w
    ensures Below(s, v) + Tied(s, v) <= Below(s, w)
    ensures w in s ==> Tied(s, w) >= 1
    ensures v in s ==> Tied(s, v) >= 1
  {
    if s != [] {
      MidrankStrict(s[1..], v, w);
    }
  }

  /** Ranks only see the order: a strictly increasing change of scale keeps them. */
  lemma {:induction false} MidrankRescaled(s: seq<real>, f: real -> real, v: real)
    requires forall x, y :: x < y ==> f(x) < f(y)
    ensures Midrank(Map(s, f), f(v)) == Midrank(s, v)
  {
    if s != [] {
      assert Map(s, f)[1..] == Map(s[1..], f);
      MidrankRescaled(s[1..], f, v);
    }
  }

  // ----- a run of equal values in sorted order -----

  lemma {:induction false} CountsAppend(s: seq<real>, t: seq<real>, v: real)
    ensures Below(s + t, v) == Below(s, v) + Below(t, v)
    ensures Tied(s + t, v) == Tied(s, v) + Tied(t, v)
  {
    if s == [] {
      assert s + t == t;
    } else {
      assert (s + t)[1..] == s[1..] + t;
      CountsAppend(s[1..], t, v);
    }
  }

  lemma {:induction false} CountsAllBelow(s: seq<real>, v: real)
    requires forall k | 0 <= k < |s| :: s[k] < v
    ensures Below(s, v) == |s| && Tied(s, v) == 0
  {
    if s != [] {
      CountsAllBelow(s[1..], v);
    }
  }

  lemma {:induction false} CountsAllTied(s: seq<real>, v: real)
    requires forall k | 0 <= k < |s| :: s[k] == v
    ensures Below(s, v) == 0 && Tied(s, v) == |s|
  {
    if s != [] {
      CountsAllTied(s[1..], v);
    }
  }

  lemma {:induction false} CountsAllAbove(s: seq<real>, v: real)
    requires forall k | 0 <= k < |s| :: s[k] > v
    ensures Below(s, v) == 0 && Tied(s, v) == 0
  {
    if s != [] {
      CountsAllAbove(s[1..], v);
    }
  }

  /** In sorted order the tied block [i, j] of v occupies ranks i + 1 to j + 1. */
  lemma RunRank(s: seq<real>, i: nat, j: nat, v: real)
    requires i <= j < |s|
    requires forall k | 0 <= k < i :: s[k] < v
    requires forall k | i <= k <= j :: s[k] == v
    requires forall k | j < k < |s| :: s[k] > v
    ensures Midrank(s, v) == (i + j) as real / 2.0 + 1.0
    ensures Tied(s, v) == j - i + 1
  {
    var low, mid, high := s[..i], s[i..j + 1], s[j + 1..];
    assert s == low + (mid + high);
    CountsAppend(low, mid + high, v);
    CountsAppend(mid, high, v);
    CountsAllBelow(low, v);
    CountsAllTied(mid, v);
    CountsAllAbove(high, v);
  }

  // ----- the loops of `_midranks` and of the inner `ranks` of `spearman` -----

  function At(xs: seq<real>): nat -> real {
    (i: nat) => if i < |xs| then xs[i] else 0.0
  }

  function ByValue(xs: seq<real>): (nat, nat) -> bool {
    (i: nat, j: nat) => At(xs)(i) <= At(xs)(j)
  }

  /** sorted(range(n), key = the value at that position) */
  function Order(xs: seq<real>): (order: seq<nat>)
    ensures multiset(order) == multiset(Range(|xs|))
    ensures |order| == |xs|
    ensures forall k | 0 <= k < |order| :: order[k] < |xs|
    ensures forall i | 0 <= i < |xs| :: i in order
    ensures forall i, j | 0 <= i < j < |xs| :: xs[order[i]] <= xs[order[j]]
  {
    var order := Sort(Range(|xs|), ByValue(xs));
    ArrangementOfRange(order, |xs|);
    assert forall i, j | 0 <= i < j < |xs| :: ByValue(xs)(order[i], order[j]) && At(xs)(order[i]) <= At(xs)(order[j]);
    order
  }

  lemma OrderArranges(xs: seq<real>)
    ensures multiset(Map(Order(xs), At(xs))) == multiset(xs)
  {
    MapMultiset(Order(xs), Range(|xs|), At(xs));
    assert Map(Range(|xs|), At(xs)) == xs;
  }

  /** The tie run that starts at position i and ends at j has this rank among xs. */
  lemma RunRankIn(xs: seq<real>, i: nat, j: nat)
    requires i <= j < |xs|
    requires 0 < i ==> xs[Order(xs)[i - 1]] < xs[Order(xs)[i]]
    requires forall k | i <= k <= j :: xs[Order(xs)[k]] == xs[Order(xs)[i]]
    requires j + 1 < |xs| ==> xs[Order(xs)[j]] != xs[Order(xs)[j + 1]]
    ensures Midrank(xs, xs[Order(xs)[i]]) == (i + j) as real / 2.0 + 1.0
  {
    var sorted := Map(Order(xs), At(xs));
    OrderArranges(xs);
    RunRank(sorted, i, j, sorted[i]);
    MidrankPermutation(sorted, xs, sorted[i]);
  }

  /** The first m positions of the sorted order have received their rank. */
  ghost predicate RankedUpTo(xs: seq<real>, ranks: seq<real>, m: nat)
    requires |ranks| == |xs| && m <= |xs|
  {
    forall k | 0 <= k < m :: ranks[Order(xs)[k]] == Midrank(xs, xs[Order(xs)[k]])
  }

  lemma RankNext(xs: seq<real>, ranks: seq<real>, k: nat, r: real)
    requires |ranks| == |xs| && k < |xs| && RankedUpTo(xs, ranks, k)
    requires r == Midrank(xs, xs[Order(xs)[k]])
    ensures RankedUpTo(xs, ranks[Order(xs)[k] := r], k + 1)
  {
  }

  lemma AllRanked(xs: seq<real>, ranks: seq<real>)
    requires |ranks| == |xs| && RankedUpTo(xs, ranks, |xs|)
    ensures forall i | 0 <= i < |xs| :: ranks[i] == Midrank(xs, xs[i])
  {
    forall i | 0 <= i < |xs|
      ensures ranks[i] == Midrank(xs, xs[i])
    {
      assert i in Order(xs);
    }
  }

  method Midranks(xs: seq<real>) returns (ranks: seq<real>)
    ensures |ranks| == |xs|
    ensures forall i | 0 <= i < |xs| :: ranks[i] == Midrank(xs, xs[i])
  {
    hide Midrank, Order;
    var order := Order(xs);
    var a := new real[|xs|](_ => 0.0);
    var i := 0;
    while i < |order|
      invariant 0 <= i <= |order|
      invariant 0 < i < |order| ==> xs[order[i - 1]] < xs[order[i]]
      invariant RankedUpTo(xs, a[..], i)
    {
      var j := i;
      while j + 1 < |order| && xs[order[j + 1]] == xs[order[i]]
        invariant i <= j < |order|
        invariant forall k | i <= k <= j :: xs[order[k]] == xs[order[i]]
      {
        j := j + 1;
      }
      RunRankIn(xs, i, j);
      var r := (i + j) as real / 2.0 + 1.0;
      for k := i to j + 1
        invariant RankedUpTo(xs, a[..], k)
      {
        RankNext(xs, a[..], k, r);
        ghost var before := a[..];
        a[order[k]] := r;
        assert a[..] == before[order[k] := r];
      }
      i := j + 1;
    }
    ranks := a[..];
    AllRanked(xs, ranks);
  }
}
