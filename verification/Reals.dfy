/** A little arithmetic, kept apart so that proofs about sums need not look into products. */
module Reals {
  function Min(a: real, b: real): real {
    if b < a then b else a
  }

  function Max(a: real, b: real): real {
    if a < b then b else a
  }

  function Least(a: nat, b: nat): nat {
    if b < a then b else a
  }

  function Times(a: real, x: real): real {
    a * x
  }

  lemma TimesIs(a: real, x: real)
    ensures Times(a, x) == a * x
  {
  }

  lemma Distribute(a: real, x: real, y: real)
    ensures Times(a, x + y) == Times(a, x) + Times(a, y)
    ensures Times(a, 0.0) == 0.0
  {
  }

  lemma PositiveTimes(x: real, y: real)
    requires x > 0.0 && y > 0.0
    ensures x * y > 0.0 && Times(x, y) > 0.0
  {
  }

  lemma NonNegativeTimes(x: real, y: real)
    requires x >= 0.0 && y >= 0.0
    ensures x * y >= 0.0 && Times(x, y) >= 0.0
  {
  }

  lemma NonNegativeQuotient(x: real, y: real)
    requires x >= 0.0 && y > 0.0
    ensures x / y >= 0.0
  {
  }

  lemma TimesQuotient(x: real, y: real)
    requires y != 0.0
    ensures Times(x / y, y) == x && Times(y, x / y) == x
  {
  }

  /** math.sqrt, as exact arithmetic knows it. */
  ghost predicate IsSqrt(root: real -> real) {
    forall x | x >= 0.0 :: root(x) >= 0.0 && root(x) * root(x) == x
  }

  lemma RootPositive(root: real -> real, x: real)
    requires IsSqrt(root) && x >= 0.0
    ensures root(x) >= 0.0 && (root(x) == 0.0 <==> x == 0.0)
  {
    assert root(x) * root(x) == x;
    if root(x) != 0.0 {
      PositiveTimes(root(x), root(x));
    }
  }

  /** Of two non-negative numbers the smaller one has the smaller square. */
  lemma SquareOrder(x: real, y: real)
    requires x >= 0.0 && y >= 0.0
    ensures x * x <= y * y ==> x <= y
  {
    if x > y {
      PositiveTimes(x - y, x + y);
      assert (x - y) * (x + y) == x * x - y * y;
    }
  }
}
