/** The exact two-sided sign test, in its two spellings. */
module SignTest {
  import opened Reals
  import opened Wilcoxon

  /** math.comb(n, k), by Pascal's rule. */
  function Choose(n: nat, k: nat): nat {
    if k == 0 then 1
    else if n == 0 then 0
    else Choose(n - 1, k - 1) + Choose(n - 1, k)
  }

  /** comb(n, 0) + ... + comb(n, m - 1) */
  function Tail(n: nat, m: nat): nat {
    if m == 0 then 0 else Tail(n, m - 1) + Choose(n, m - 1)
  }

  lemma {:induction false} ChooseBeyond(n: nat, k: nat)
    requires k > n
    ensures Choose(n, k) == 0
  {
    if n > 0 {
      ChooseBeyond(n - 1, k - 1);
      ChooseBeyond(n - 1, k);
    }
  }

  lemma {:induction false} ChoosePositive(n: nat, k: nat)
    requires k <= n
    ensures Choose(n, k) >= 1
  {
    if 0 < k {
      ChoosePositive(n - 1, k - 1);
    }
  }

  lemma {:induction false} ChooseSymmetric(n: nat, k: nat)
    requires k <= n
    ensures Choose(n, k) == Choose(n, n - k)
  {
    if k == n {
      ChooseDiagonal(n);
    } else if 0 < k {
      ChooseSymmetric(n - 1, k - 1);
      ChooseSymmetric(n - 1, k);
    } else {
      ChooseDiagonal(n);
    }
  }

  lemma {:induction false} ChooseDiagonal(n: nat)
    ensures Choose(n, n) == 1
  {
    if n > 0 {
      ChooseDiagonal(n - 1);
      ChooseBeyond(n - 1, n);
    }
  }

  /** Pascal's rule for partial rows. */
  lemma {:induction false} TailPascal(n: nat, m: nat)
    ensures Tail(n + 1, m + 1) == Tail(n, m + 1) + Tail(n, m)
  {
    if m > 0 {
      TailPascal(n, m - 1);
    }
  }

  lemma {:induction false} TailBeyond(n: nat, m: nat)
    requires m > n
    ensures Tail(n, m) == Tail(n, n + 1)
  {
    if m > n + 1 {
      TailBeyond(n, m - 1);
      ChooseBeyond(n, m - 1);
    }
  }

  /** The binomial row sums to 2^n. */
  lemma {:induction false} RowSumsToPow2(n: nat)
    ensures Tail(n, n + 1) == Pow2(n)
  {
    if n > 0 {
      RowSumsToPow2(n - 1);
      TailPascal(n - 1, n);
      TailBeyond(n - 1, n + 1);
    }
  }

  /** The lower tail and the rest of the row mirror each other. */
  lemma {:induction false} TailMirror(n: nat, m: nat)
    requires m <= n + 1
    ensures Tail(n, m) + Tail(n, n + 1 - m) == Pow2(n)
  {
    if m == 0 {
      RowSumsToPow2(n);
    } else {
      TailMirror(n, m - 1);
      ChooseSymmetric(n, m - 1);
    }
  }

  lemma {:induction false} TailStrict(n: nat, m: nat, m': nat)
    requires m < m' <= n + 1
    ensures Tail(n, m) < Tail(n, m')
  {
    ChoosePositive(n, m' - 1);
    if m < m' - 1 {
      TailStrict(n, m, m' - 1);
    }
  }

  /** Twice the tail up to the smaller count falls short of the whole row exactly when the counts differ by two or
      more. */
  lemma TwiceTail(n: nat, k: nat)
    requires 2 * k <= n
    ensures 0 < 2 * Tail(n, k + 1)
    ensures 2 * Tail(n, k + 1) < Pow2(n) <==> n - 2 * k >= 2
  {
    TailMirror(n, k + 1);
    TailStrict(n, 0, k + 1);
    if n - 2 * k >= 2 {
      TailStrict(n, k + 1, n - k);
    } else if n - 2 * k == 0 {
      TailStrict(n, k, k + 1);
    }
  }

  // ----- the two scripts' forms -----

  function CappedRatio(x: nat, y: nat): real
    requires y > 0
  {
    var r := x as real / y as real;
    if r < 1.0 then r else 1.0
  }

  /** sign_test(pos, neg) of the capacity read. */
  function SignTest(pos: nat, neg: nat): real {
    var n := pos + neg;
    if n == 0 then 1.0 else CappedRatio(2 * Tail(n, Least(pos, neg) + 1), Pow2(n))
  }

  function Positives(d: seq<real>): nat {
    if d == [] then 0 else (if d[0] > 0.0 then 1 else 0) + Positives(d[1..])
  }

  function Negatives(d: seq<real>): nat {
    if d == [] then 0 else (if d[0] < 0.0 then 1 else 0) + Negatives(d[1..])
  }

  datatype PValue = Undefined | P(p: real)

  lemma RatioOrder(x: nat, y: nat)
    requires y > 0
    ensures 0 < x ==> 0.0 < CappedRatio(x, y) <= 1.0
    ensures CappedRatio(x, y) < 1.0 <==> x < y
  {
    var r := x as real / y as real;
    assert r * y as real == x as real;
  }

  lemma RatioMonotone(x: nat, x': nat, y: nat)
    requires y > 0 && x <= x'
    ensures CappedRatio(x, y) <= CappedRatio(x', y)
    ensures x < x' && CappedRatio(x, y) < 1.0 ==> CappedRatio(x, y) < CappedRatio(x', y)
  {
    var r, r' := x as real / y as real, x' as real / y as real;
    assert r * y as real == x as real && r' * y as real == x' as real;
    assert (r' - r) * y as real == x' as real - x as real;
  }

  /** In (0, 1], symmetric in wins and losses, and 1 exactly when the counts differ by at most one. */
  lemma SignTestRange(pos: nat, neg: nat)
    ensures 0.0 < SignTest(pos, neg) <= 1.0
    ensures SignTest(pos, neg) == SignTest(neg, pos)
    ensures SignTest(pos, neg) == 1.0 <==> -1 <= pos - neg <= 1
  {
    var n, k := pos + neg, Least(pos, neg);
    if n > 0 {
      TwiceTail(n, k);
      RatioOrder(2 * Tail(n, k + 1), Pow2(n));
    }
  }

  /** If all trials go one way, p is 2^(1-n). */
  lemma OneSidedSignTest(n: nat)
    requires n > 0
    ensures Times(SignTest(n, 0), Pow2(n) as real) == 2.0
    ensures SignTest(0, n) == SignTest(n, 0)
  {
    assert Tail(n, 1) == Tail(n, 0) + Choose(n, 0) == 1;
    assert Pow2(n) == 2 * Pow2(n - 1) && Pow2(n) >= 2;
    TimesQuotient(2.0, Pow2(n) as real);
    var r := 2.0 / Pow2(n) as real;
    if Pow2(n) == 2 {
      assert r == 1.0;
    } else {
      assert r * Pow2(n) as real == 2.0;
    }
  }

  /** Over the same number of trials p grows with the smaller count, strictly until it reaches 1. */
  lemma SignTestMonotone(pos: nat, neg: nat, pos': nat, neg': nat)
    requires pos + neg == pos' + neg' && Least(pos, neg) < Least(pos', neg')
    ensures SignTest(pos, neg) < SignTest(pos', neg')
  {
    var n, k, k' := pos + neg, Least(pos, neg), Least(pos', neg');
    TailStrict(n, k + 1, k' + 1);
    TwiceTail(n, k);
    RatioOrder(2 * Tail(n, k + 1), Pow2(n));
    RatioMonotone(2 * Tail(n, k + 1), 2 * Tail(n, k' + 1), Pow2(n));
  }

  /** sign_test_p(diffs) of the paired read. */
  function SignTestP(diffs: seq<real>): PValue {
    var d := Kept(diffs);
    var n, k := |d|, Positives(d);
    if n == 0 then Undefined
    else
      PositivesAtMost(d);
      var tail := Tail(n, Least(k, n - k) + 1) as real / Pow2(n) as real;
      P(if 2.0 * tail < 1.0 then 2.0 * tail else 1.0)
  }

  lemma {:induction false} PositivesAtMost(d: seq<real>)
    ensures Positives(d) <= |d|
  {
    if d != [] {
      PositivesAtMost(d[1..]);
    }
  }

  lemma {:induction false} NonZeroSplits(d: seq<real>)
    requires forall i | 0 <= i < |d| :: Abs(d[i]) > EPSILON
    ensures Positives(d) + Negatives(d) == |d|
  {
    if d != [] {
      NonZeroSplits(d[1..]);
    }
  }

  /** The two spellings agree on the counts of positive and negative differences, except that without any
      difference one answers nan and the other 1. */
  lemma SignTestsAgree(diffs: seq<real>)
    ensures var d := Kept(diffs);
      SignTestP(diffs) == (if d == [] then Undefined else P(SignTest(Positives(d), Negatives(d))))
    ensures Kept(diffs) == [] ==> SignTest(0, 0) == 1.0
  {
    var d := Kept(diffs);
    NonZeroSplits(d);
    if d != [] {
      var n, k := |d|, Positives(d);
      TwiceRatio(Tail(n, Least(k, n - k) + 1), Pow2(n));
    }
  }

  lemma TwiceRatio(x: nat, y: nat)
    requires y > 0
    ensures 2.0 * (x as real / y as real) == (2 * x) as real / y as real
  {
    var r, r2 := x as real / y as real, (2 * x) as real / y as real;
    assert r * y as real == x as real && r2 * y as real == 2.0 * x as real;
    assert (r2 - 2.0 * r) * y as real == 0.0;
  }
}
