/** Items with pools of their own: when taking a shallowest queue of the pool, one item at a time, is least in total. */
module NestedPools {
  import opened Balance
  import opened Sums

  /** Every item goes to a queue of its pool that is shallowest at its turn. */
  ghost predicate Greedy(run: seq<string>, pools: seq<set<string>>, base: string -> int) {
    && Allowed(run, pools)
    && forall i, j | 0 <= i < |run| && j in pools[i] :: Final(run[..i], base, run[i]) <= Final(run[..i], base, j)
  }

  /** A later pool takes in an earlier one or shares nothing with it. */
  predicate Widens(p: set<string>, q: set<string>) {
    p <= q || p !! q
  }

  ghost predicate Nested(pools: seq<set<string>>) {
    forall i, j | 0 <= i < j < |pools| :: Widens(pools[i], pools[j])
  }

  function Raised(mark: string -> int, pool: set<string>, depth: int): string -> int {
    k => if k in pool && mark(k) < depth then depth else mark(k)
  }

  lemma GreedyNext(run: seq<string>, pools: seq<set<string>>, base: string -> int, k: string, pool: set<string>)
    requires Greedy(run, pools, base)
    requires k in pool && forall j | j in pool :: Final(run, base, k) <= Final(run, base, j)
    ensures Greedy(run + [k], pools + [pool], base)
  {
    var n, longer := |run|, run + [k];
    assert longer[..n] == run;
    assert forall i | 0 <= i < n :: longer[i] == run[i] && (pools + [pool])[i] == pools[i] && longer[..i] == run[..i];
  }

  /** A single item goes to a shallowest queue. */
  lemma GreedyAlone(run: seq<string>, pools: seq<set<string>>, base: string -> int)
    requires Greedy(run, pools, base) && |pools| == 1
    ensures |run| == 1 && run[0] in pools[0] && forall j | j in pools[0] :: base(run[0]) <= base(j)
  {
    assert run[..0] == [];
    forall j | j in pools[0]
      ensures base(run[0]) <= base(j)
    {
      assert Final(run[..0], base, run[0]) <= Final(run[..0], base, j);
    }
  }

  lemma GreedyLast(run: seq<string>, pools: seq<set<string>>, base: string -> int)
    requires run != [] && Greedy(run, pools, base)
    ensures Greedy(run[..|run| - 1], pools[..|run| - 1], base)
    ensures var n := |run| - 1;
      |pools| == |run| && run[n] in pools[n] &&
      forall j | j in pools[n] :: Final(run[..n], base, run[n]) <= Final(run[..n], base, j)
  {
    var n := |run| - 1;
    assert forall i | 0 <= i < n :: run[..n][i] == run[i] && pools[..n][i] == pools[i] && run[..n][..i] == run[..i];
  }

  /** Raising the marks of the last pool to the depth met there supports the longer run: the pools of all items in it
      are raised as a whole. */
  lemma SupportNext(mark: string -> int, run: seq<string>, pools: seq<set<string>>, base: string -> int)
    requires run != [] && Greedy(run, pools, base) && Nested(pools)
    requires Supports(mark, run[..|run| - 1], pools[..|run| - 1], base)
    ensures var n := |run| - 1; Supports(Raised(mark, pools[n], Final(run[..n], base, run[n])), run, pools, base)
  {
    var n := |run| - 1;
    var front, pool, depth := run[..n], pools[n], Final(run[..n], base, run[n]);
    var raised := Raised(mark, pool, depth);
    assert run == front + [run[n]];
    forall k
      ensures raised(k) <= Final(run, base, k)
      ensures Load(run, k) > 0 ==> Final(run, base, k) - 1 <= raised(k)
    {
      assert k in pool ==> depth <= Final(front, base, k);
    }
    forall i, j | 0 <= i < |run| && j in pools[i]
      ensures raised(run[i]) <= raised(j)
    {
      if i < n {
        assert front[i] == run[i] && pools[..n][i] == pools[i];
        assert run[i] in pools[i] && Widens(pools[i], pool);
      }
    }
  }

  lemma {:induction false} GreedyIsSupported(run: seq<string>, pools: seq<set<string>>, base: string -> int)
      returns (mark: string -> int)
    requires Greedy(run, pools, base) && Nested(pools)
    ensures Supports(mark, run, pools, base)
  {
    mark := base;
    if run != [] {
      GreedyLast(run, pools, base);
      var before := GreedyIsSupported(run[..|run| - 1], pools[..|run| - 1], base);
      SupportNext(before, run, pools, base);
      mark := Raised(before, pools[|run| - 1], Final(run[..|run| - 1], base, run[|run| - 1]));
    }
  }

  /** On nested pools a greedy run ends with the least potential. */
  lemma GreedyHasLeastPotential(run: seq<string>, pools: seq<set<string>>, other: seq<string>, base: string -> int,
                                pool: set<string>)
    requires Greedy(run, pools, base) && Nested(pools) && Allowed(other, pools)
    requires Within(run, pool) && Within(other, pool)
    ensures SetSum(pool, FinalTriangle(run, base)) <= SetSum(pool, FinalTriangle(other, base))
  {
    var mark := GreedyIsSupported(run, pools, base);
    SupportedIsLeast(mark, run, pools, other, base, pool);
  }

  /** And it meets the least total depth. */
  lemma GreedyMeetsLeast(run: seq<string>, pools: seq<set<string>>, other: seq<string>, base: string -> int)
    requires Greedy(run, pools, base) && Nested(pools) && Allowed(other, pools)
    ensures DepthMet(run, base) <= DepthMet(other, base)
  {
    var pool := set k | k in run + other;
    assert forall i | 0 <= i < |run| :: run[i] in run + other;
    assert forall i | 0 <= i < |other| :: other[i] in run + other;
    GreedyHasLeastPotential(run, pools, other, base, pool);
    DepthMetIsPotential(run, base, pool);
    DepthMetIsPotential(other, base, pool);
  }

  lemma AllowedIsWithin(run: seq<string>, pools: seq<set<string>>, pool: set<string>)
    requires Allowed(run, pools) && forall i | 0 <= i < |pools| :: pools[i] <= pool
    ensures Within(run, pool)
  {
  }

  /** With one pool for all items, every queue that received something ends at most one above every other. */
  lemma {:induction false} GreedyIsLevel(run: seq<string>, pools: seq<set<string>>, base: string -> int,
                                         pool: set<string>)
    requires Greedy(run, pools, base) && forall i | 0 <= i < |pools| :: pools[i] == pool
    ensures Level(run, base, pool)
  {
    if run != [] {
      var n := |run| - 1;
      GreedyLast(run, pools, base);
      hide Greedy, Level, Final, Nested;
      GreedyIsLevel(run[..n], pools[..n], base, pool);
      ShortestKeepsLevel(run[..n], run[n], base, pool);
      assert run == run[..n] + [run[n]];
    }
  }

  // ----- pools that overlap without nesting -----

  /** The shallowest queue a belongs to both pools, the next one b only to the first. */
  function Tempting(a: string, b: string): string -> int {
    k => if k == a then 0 else if k == b then 1 else 3
  }

  /** A pool with a and b, then twice one with a but not b. */
  ghost predicate Overlapping(pools: seq<set<string>>, a: string, b: string) {
    && |pools| == 3 && a in pools[0] && b in pools[0]
    && a in pools[1] && b !in pools[1] && pools[2] == pools[1]
  }

  lemma AllTempted(pools: seq<set<string>>, a: string, b: string, base: string -> int, run: seq<string>)
    requires Overlapping(pools, a, b)
    requires forall i, k | 0 <= i < |pools| && k in pools[i] :: base(k) == Tempting(a, b)(k)
    requires Greedy(run, pools, base)
    ensures run == [a, a, a]
  {
    assert run[..0] == [] && run[..1] == [run[0]] && run[..2] == [run[0], run[1]];
    LoadOfFew(run[0], run[1], a);
    forall i | 0 <= i < 3
      ensures run[i] in pools[i] && Final(run[..i], base, run[i]) <= Final(run[..i], base, a)
    {
    }
    assert run[0] == a;
    assert run[1] == a;
    assert run[2] == a;
  }

  /** Any greedy run then puts all three items on a and meets depth 3, where b, a, a meets depth 2. */
  lemma OverlapMisleads(pools: seq<set<string>>, a: string, b: string, base: string -> int, run: seq<string>)
    requires Overlapping(pools, a, b)
    requires forall i, k | 0 <= i < |pools| && k in pools[i] :: base(k) == Tempting(a, b)(k)
    requires Greedy(run, pools, base)
    ensures Allowed([b, a, a], pools) && DepthMet([b, a, a], base) == 2 && DepthMet(run, base) == 3
  {
    AllTempted(pools, a, b, base, run);
    hide Greedy, DepthMet, Load;
    assert a in pools[0] && base(a) == 0 && base(b) == 1;
    LoadOfFew(a, a, a);
    LoadOfFew(b, a, a);
    DepthOfThree(a, a, a, base);
    DepthOfThree(b, a, a, base);
  }

  /** A pool of both queues, then one of each alone. */
  ghost predicate Crossing(pools: seq<set<string>>, a: string, b: string) {
    a != b && |pools| == 3 && pools[0] == {a, b} && pools[1] == {b} && pools[2] == {a}
  }

  lemma CrossingRun(pools: seq<set<string>>, a: string, b: string, run: seq<string>, base: string -> int)
    requires Crossing(pools, a, b) && Allowed(run, pools)
    ensures |run| == 3 && (run[0] == a || run[0] == b)
    ensures DepthMet(run, base) == base(a) + base(b) + base(run[0]) + 1
  {
    assert run[0] in pools[0] && run[1] in pools[1] && run[2] in pools[2];
    assert run == [run[0], b, a];
    DepthOfThree(run[0], b, a, base);
    LoadOfFew(run[0], b, a);
    LoadOfFew(run[0], b, b);
  }

  /** These pools do not nest, and still any greedy run meets the least depth. */
  lemma CrossingIsHarmless(pools: seq<set<string>>, a: string, b: string, run: seq<string>, other: seq<string>,
                           base: string -> int)
    requires Crossing(pools, a, b) && Greedy(run, pools, base) && Allowed(other, pools)
    ensures !Nested(pools)
    ensures DepthMet(run, base) <= DepthMet(other, base)
  {
    CrossingRun(pools, a, b, run, base);
    CrossingRun(pools, a, b, other, base);
    assert run[..0] == [];
    assert forall j | j in pools[0] :: Final(run[..0], base, run[0]) <= Final(run[..0], base, j);
    hide DepthMet;
    assert base(run[0]) <= base(other[0]);
    assert a in pools[0] && a in pools[2] && b !in pools[2] && !Widens(pools[0], pools[2]);
  }

  lemma LoadOfFew(x: string, y: string, k: string)
    ensures Load([], k) == 0 && Load([x], k) == if x == k then 1 else 0
    ensures Load([x, y], k) == (if x == k then 1 else 0) + if y == k then 1 else 0
  {
    assert [x][..0] == [] && [x, y][..1] == [x];
  }

  lemma DepthOfThree(x: string, y: string, z: string, base: string -> int)
    ensures DepthMet([x, y, z], base)
         == base(x) + (base(y) + Load([x], y)) + (base(z) + Load([x, y], z))
  {
    assert [x][..0] == [] && [x, y][..1] == [x] && [x, y, z][..2] == [x, y];
    assert DepthMet([x], base) == base(x);
    assert DepthMet([x, y], base) == DepthMet([x], base) + base(y) + Load([x], y);
  }
}
