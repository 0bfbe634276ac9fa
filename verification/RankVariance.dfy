/** The spread of midranks: their squared distances from the middle add up to a cube less those of the tied blocks. */
module RankVariance {
  import opened Ranks
  import opened Reals
  import opened Sums

  function Square(t: real): real {
    t * t
  }

  /** n^2 - t^2 for the size t of the tied block of x. */
  function TieSlack(s: seq<real>): real -> real {
    x => Square(|s| as real) - Square(Tied(s, x) as real)
  }

  /** Which of two values leads: 1, 0 or -1. */
  function Lead(x: real, y: real): real {
    if x > y then 1.0 else if x < y then -1.0 else 0.0
  }

  /** The rank of x among s, measured from the middle rank (n + 1) / 2. */
  function FromMiddle(s: seq<real>, x: real): real {
    Midrank(s, x) - (|s| as real + 1.0) / 2.0
  }

  function SquareFromMiddle(s: seq<real>): real -> real {
    x => Times(FromMiddle(s, x), FromMiddle(s, x))
  }

  /** Twice the distance from the middle rank is comparisons won less comparisons lost. */
  lemma {:induction false} FromMiddleIsLeads(s: seq<real>, x: real)
    ensures 2.0 * FromMiddle(s, x) == Sum(s, Row(Lead, x))
  {
    if s != [] {
      FromMiddleIsLeads(s[1..], x);
      assert Row(Lead, x)(s[0]) == Lead(x, s[0]);
    }
  }

  // ----- triples -----

  function Products(f: real -> real): (real, real) -> real {
    (y, z) => Times(f(y), f(z))
  }

  lemma SquareOfSum(s: seq<real>, f: real -> real)
    ensures DoubleSum(s, s, Products(f)) == Times(Sum(s, f), Sum(s, f))
  {
    hide Times;
    var total := Sum(s, f);
    forall y | y in s
      ensures RowSum(Products(f), s)(y) == Times(total, f(y))
    {
      SumScale(s, Row(Products(f), y), f(y), f);
      TimesSwap(f(y), total);
    }
    SumScale(s, RowSum(Products(f), s), total, f);
  }

  lemma TimesSwap(x: real, y: real)
    ensures Times(x, y) == Times(y, x)
  {
  }

  /** The comparisons of x with y and with z, multiplied. */
  function Pivot(x: real, y: real, z: real): real {
    Times(Lead(x, y), Lead(x, z))
  }

  function PivotsOn(s: seq<real>): (real, real) -> real {
    (x, y) => Sum(s, z => Pivot(x, y, z))
  }

  function PivotsLast(s: seq<real>): (real, real) -> real {
    (x, y) => Sum(s, z => Pivot(z, x, y))
  }

  /** One of three values lies between the others: unless all are equal, the three products add up to 1. */
  lemma ThreePivots(x: real, y: real, z: real)
    ensures Pivot(x, y, z) + Pivot(y, x, z) + Pivot(z, x, y) == if x == y && y == z then 0.0 else 1.0
  {
  }

  lemma PivotPair(s: seq<real>, x: real, y: real)
    ensures PivotsOn(s)(x, y) == RowSum(Products(Row(Lead, x)), s)(y)
  {
    hide Times, Lead;
    forall z
      ensures Pivot(x, y, z) == Row(Products(Row(Lead, x)), y)(z)
    {
      assert Row(Lead, x)(y) == Lead(x, y) && Row(Lead, x)(z) == Lead(x, z);
    }
    SumCongruent(s, z => Pivot(x, y, z), Row(Products(Row(Lead, x)), y));
  }

  lemma PivotRowIsSquare(s: seq<real>, x: real)
    ensures RowSum(PivotsOn(s), s)(x) == DoubleSum(s, s, Products(Row(Lead, x)))
  {
    forall y | y in s
      ensures Row(PivotsOn(s), x)(y) == RowSum(Products(Row(Lead, x)), s)(y)
    {
      PivotPair(s, x, y);
      assert Row(PivotsOn(s), x)(y) == PivotsOn(s)(x, y);
    }
    hide Lead, PivotsOn, Products, Pivot;
    SumCongruent(s, Row(PivotsOn(s), x), RowSum(Products(Row(Lead, x)), s));
  }

  lemma PivotRow(s: seq<real>, x: real)
    ensures RowSum(PivotsOn(s), s)(x) == Times(4.0, SquareFromMiddle(s)(x))
  {
    hide Times, Lead, FromMiddle, RowSum, DoubleSum, PivotsOn, Products, Sum, Row;
    var m := FromMiddle(s, x);
    var total := Sum(s, Row(Lead, x));
    PivotRowIsSquare(s, x);
    SquareOfSum(s, Row(Lead, x));
    FromMiddleIsLeads(s, x);
    FourSquares(m);
    assert total == 2.0 * m;
  }

  function FourTimes(s: seq<real>): real -> real {
    x => Times(4.0, SquareFromMiddle(s)(x))
  }

  lemma PivotSquares(s: seq<real>)
    ensures DoubleSum(s, s, PivotsOn(s)) == 4.0 * Sum(s, SquareFromMiddle(s))
  {
    forall x | x in s
      ensures RowSum(PivotsOn(s), s)(x) == FourTimes(s)(x)
    {
      PivotRow(s, x);
    }
    TimesIs(4.0, Sum(s, SquareFromMiddle(s)));
    hide Times, RowSum, PivotsOn, SquareFromMiddle;
    SumCongruent(s, RowSum(PivotsOn(s), s), FourTimes(s));
    SumScale(s, FourTimes(s), 4.0, SquareFromMiddle(s));
  }

  lemma FourSquares(x: real)
    ensures Times(2.0 * x, 2.0 * x) == Times(4.0, Times(x, x))
  {
  }

  /** Naming the values of a triple in another order changes no sum over all triples. */
  lemma PivotsRenamed(s: seq<real>)
    ensures DoubleSum(s, s, Flip(PivotsOn(s))) == DoubleSum(s, s, PivotsOn(s))
    ensures DoubleSum(s, s, PivotsLast(s)) == DoubleSum(s, s, PivotsOn(s))
  {
    DoubleSumSwap(s, s, PivotsOn(s));
    forall x | x in s
      ensures RowSum(PivotsLast(s), s)(x) == RowSum(Flip(PivotsOn(s)), s)(x)
    {
      var f := (y: real, z: real) => Pivot(z, x, y);
      DoubleSumSwap(s, s, f);
      forall y
        ensures Row(PivotsLast(s), x)(y) == RowSum(f, s)(y)
      {
        SumCongruent(s, z => Pivot(z, x, y), Row(f, y));
      }
      SumCongruent(s, Row(PivotsLast(s), x), RowSum(f, s));
      forall z
        ensures Row(Flip(PivotsOn(s)), x)(z) == RowSum(Flip(f), s)(z)
      {
        SumCongruent(s, y => Pivot(z, x, y), Row(Flip(f), z));
      }
      SumCongruent(s, Row(Flip(PivotsOn(s)), x), RowSum(Flip(f), s));
    }
    SumCongruent(s, RowSum(PivotsLast(s), s), RowSum(Flip(PivotsOn(s)), s));
  }

  /** n, less the size of the tied block if x and y are tied. */
  function Untied(s: seq<real>): (real, real) -> real {
    (x, y) => |s| as real - if x == y then Tied(s, x) as real else 0.0
  }

  lemma {:induction false} PivotsAddUp(s: seq<real>, t: seq<real>, x: real, y: real)
    ensures Sum(t, z => Pivot(x, y, z)) + Sum(t, z => Pivot(y, x, z)) + Sum(t, z => Pivot(z, x, y))
         == |t| as real - if x == y then Tied(t, x) as real else 0.0
  {
    if t != [] {
      PivotsAddUp(s, t[1..], x, y);
      ThreePivots(x, y, t[0]);
    }
  }

  lemma {:induction false} UntiedRow(s: seq<real>, t: seq<real>, x: real)
    ensures Sum(t, Row(Untied(s), x)) == Times(|t| as real, |s| as real) - Times(Tied(t, x) as real, Tied(s, x) as real)
  {
    if t != [] {
      UntiedRow(s, t[1..], x);
      assert Row(Untied(s), x)(t[0]) == Untied(s)(x, t[0]);
      OneMoreTimes(|t[1..]|, |s|);
      OneMoreTimes(Tied(t[1..], x), Tied(s, x));
    }
  }

  lemma OneMoreTimes(n: nat, m: nat)
    ensures Times((n + 1) as real, m as real) == Times(n as real, m as real) + m as real
  {
  }

  function Both(f: (real, real) -> real, g: (real, real) -> real): (real, real) -> real {
    (x, y) => f(x, y) + g(x, y)
  }

  lemma UntiedTotal(s: seq<real>)
    ensures DoubleSum(s, s, Untied(s)) == Sum(s, TieSlack(s))
  {
    forall x | x in s
      ensures RowSum(Untied(s), s)(x) == TieSlack(s)(x)
    {
      UntiedRow(s, s, x);
    }
    hide Untied, TieSlack;
    SumCongruent(s, RowSum(Untied(s), s), TieSlack(s));
  }

  /** Twelve times the squared distances of the ranks from the middle are the cube of n less the squares of the tied
      blocks, one for each value. */
  lemma RanksSpread(s: seq<real>)
    ensures 12.0 * Sum(s, SquareFromMiddle(s)) == Sum(s, TieSlack(s))
  {
    var on, last := PivotsOn(s), PivotsLast(s);
    forall x, y | x in s && y in s
      ensures Untied(s)(x, y) == Both(on, Flip(on))(x, y) + last(x, y)
    {
      PivotsAddUp(s, s, x, y);
    }
    hide Untied, PivotsOn, PivotsLast, DoubleSum, Sum, TieSlack, SquareFromMiddle;
    DoubleSumPlus(s, s, Untied(s), Both(on, Flip(on)), last);
    DoubleSumPlus(s, s, Both(on, Flip(on)), on, Flip(on));
    UntiedTotal(s);
    PivotSquares(s);
    PivotsRenamed(s);
  }
}
