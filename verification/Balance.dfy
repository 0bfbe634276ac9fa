/** Spreading items over queues one at a time: the total depth met, and why a level spread makes it least. */
module Balance {
  import opened Reals
  import opened Sums

  /** How many items a run of choices puts on queue k. */
  function Load(run: seq<string>, k: string): nat {
    if run == [] then 0 else Load(run[..|run| - 1], k) + if run[|run| - 1] == k then 1 else 0
  }

  /** The queue depths met along a run, added up: each item meets what was there plus what the run already put there. */
  function DepthMet(run: seq<string>, base: string -> int): int {
    if run == [] then 0
    else
      var front, last := run[..|run| - 1], run[|run| - 1];
      DepthMet(front, base) + base(last) + Load(front, last)
  }

  function Final(run: seq<string>, base: string -> int, k: string): int {
    base(k) + Load(run, k)
  }

  /** Every queue that received an item ends at most one above every other queue of the pool. */
  ghost predicate Level(run: seq<string>, base: string -> int, pool: set<string>) {
    forall k, j | k in pool && j in pool && Load(run, k) > 0 :: Final(run, base, k) <= Final(run, base, j) + 1
  }

  ghost predicate Within(run: seq<string>, pool: set<string>) {
    forall i | 0 <= i < |run| :: run[i] in pool
  }

  /** 0 + 1 + ... + (x - 1) */
  function Triangle(x: int): real {
    (x * (x - 1)) as real / 2.0
  }

  lemma TriangleStep(x: int)
    ensures Triangle(x + 1) == Triangle(x) + x as real
  {
    assert (x + 1) * x == x * (x - 1) + 2 * x;
  }

  function FinalTriangle(run: seq<string>, base: string -> int): string -> real {
    k => Triangle(Final(run, base, k))
  }

  function FinalDepth(run: seq<string>, base: string -> int): string -> real {
    k => Final(run, base, k) as real
  }

  lemma SumsAfterOne(run: seq<string>, last: string, base: string -> int, pool: set<string>)
    requires last in pool
    ensures SetSum(pool, FinalTriangle(run + [last], base))
         == SetSum(pool, FinalTriangle(run, base)) + Final(run, base, last) as real
    ensures SetSum(pool, FinalDepth(run + [last], base)) == SetSum(pool, FinalDepth(run, base)) + 1.0
  {
    hide Triangle;
    var longer := run + [last];
    assert longer[..|longer| - 1] == run;
    SetSumRemove(pool, last, FinalTriangle(longer, base));
    SetSumRemove(pool, last, FinalTriangle(run, base));
    SetSumRemove(pool, last, FinalDepth(longer, base));
    SetSumRemove(pool, last, FinalDepth(run, base));
    SetSumCongruent(pool - {last}, FinalTriangle(longer, base), FinalTriangle(run, base));
    SetSumCongruent(pool - {last}, FinalDepth(longer, base), FinalDepth(run, base));
    TriangleStep(Final(run, base, last));
  }

  /** The depth met only depends on where the queues end up, not on the order of the choices. */
  lemma {:induction false} DepthMetIsPotential(run: seq<string>, base: string -> int, pool: set<string>)
    requires Within(run, pool)
    ensures DepthMet(run, base) as real
         == SetSum(pool, FinalTriangle(run, base)) - SetSum(pool, FinalTriangle([], base))
    ensures SetSum(pool, FinalDepth(run, base)) == SetSum(pool, FinalDepth([], base)) + |run| as real
  {
    if run != [] {
      hide FinalTriangle, FinalDepth;
      var front, last := run[..|run| - 1], run[|run| - 1];
      assert run == front + [last];
      DepthMetIsPotential(front, base, pool);
      SumsAfterOne(front, last, base, pool);
    }
  }

  /** Discrete convexity: moving a queue from f to g changes the potential by at least floor * (g - f). */
  lemma TriangleGap(f: int, g: int, b: int, floor: int)
    requires b <= f && b <= g && floor <= f && (f > b ==> f - 1 <= floor)
    ensures Triangle(g) - Triangle(f) >= Times(floor as real, (g - f) as real)
    decreases if g > f then g - f else f - g
  {
    if g > f {
      TriangleGap(f, g - 1, b, floor);
      TriangleStep(g - 1);
      TimesStep(floor, g - 1 - f);
    } else if g < f {
      TriangleGap(f, g + 1, b, floor);
      TriangleStep(g);
      TimesStep(floor, g - f);
    }
  }

  lemma TimesStep(a: int, x: int)
    ensures Times(a as real, (x + 1) as real) == Times(a as real, x as real) + a as real
    ensures Times(a as real, 0.0) == 0.0
  {
    assert (x + 1) as real == x as real + 1.0;
  }

  lemma {:induction false} ShallowestQueue(run: seq<string>, base: string -> int, pool: set<string>) returns (m: string)
    requires pool != {}
    ensures m in pool && forall k | k in pool :: Final(run, base, m) <= Final(run, base, k)
    decreases |pool|
  {
    var k :| k in pool;
    var rest := pool - {k};
    m := k;
    if rest != {} {
      var r := ShallowestQueue(run, base, rest);
      if Final(run, base, r) < Final(run, base, k) {
        m := r;
      }
      forall j | j in pool
        ensures Final(run, base, m) <= Final(run, base, j)
      {
        assert j == k || j in rest;
      }
    } else {
      assert pool == {k};
    }
  }

  // ----- a certificate that a spread is least -----

  /** The i-th item went to a queue of the i-th pool. */
  ghost predicate Allowed(run: seq<string>, pools: seq<set<string>>) {
    |run| == |pools| && forall i | 0 <= i < |run| :: run[i] in pools[i]
  }

  /** Marks at the final depth of each queue, or one below it where something arrived, such that no item could have
      gone to a queue with a lower mark. */
  ghost predicate Supports(mark: string -> int, run: seq<string>, pools: seq<set<string>>, base: string -> int) {
    && Allowed(run, pools)
    && (forall k :: mark(k) <= Final(run, base, k))
    && (forall k | Load(run, k) > 0 :: Final(run, base, k) - 1 <= mark(k))
    && (forall i, j | 0 <= i < |run| && j in pools[i] :: mark(run[i]) <= mark(j))
  }

  function RealMark(mark: string -> int): string -> real {
    k => mark(k) as real
  }

  function MarkedLoad(mark: string -> int, run: seq<string>): string -> real {
    k => Times(mark(k) as real, Load(run, k) as real)
  }

  /** Weighing every queue's load with its mark adds up the marks along the run. */
  lemma {:induction false} MarksAlongRun(mark: string -> int, run: seq<string>, pool: set<string>)
    requires Within(run, pool)
    ensures SetSum(pool, MarkedLoad(mark, run)) == Sum(run, RealMark(mark))
  {
    if run == [] {
      forall k
        ensures MarkedLoad(mark, run)(k) == 0.0
      {
        TimesStep(mark(k), 0);
      }
      SetSumConstant(pool, MarkedLoad(mark, run), 0.0);
    } else {
      hide Times;
      var front, last := run[..|run| - 1], run[|run| - 1];
      assert run == front + [last];
      MarksAlongRun(mark, front, pool);
      SumSnoc(front, last, RealMark(mark));
      TimesStep(mark(last), Load(front, last));
      SetSumRemove(pool, last, MarkedLoad(mark, run));
      SetSumRemove(pool, last, MarkedLoad(mark, front));
      SetSumCongruent(pool - {last}, MarkedLoad(mark, run), MarkedLoad(mark, front));
    }
  }

  lemma {:induction false} SumPointwise(a: seq<string>, b: seq<string>, f: string -> real)
    requires |a| == |b| && forall i | 0 <= i < |a| :: f(a[i]) <= f(b[i])
    ensures Sum(a, f) <= Sum(b, f)
  {
    if a != [] {
      SumPointwise(a[1..], b[1..], f);
    }
  }

  function Plus(f: string -> real, g: string -> real): string -> real {
    k => f(k) + g(k)
  }

  /** Moving between two loads changes the potential at least by the marks times the items moved. */
  lemma RisesByMark(mark: string -> int, run: seq<string>, pools: seq<set<string>>, other: seq<string>,
                    base: string -> int, k: string)
    requires Supports(mark, run, pools, base)
    ensures FinalTriangle(run, base)(k) + MarkedLoad(mark, other)(k)
         <= FinalTriangle(other, base)(k) + MarkedLoad(mark, run)(k)
  {
    var n: int, m: int := Load(run, k), Load(other, k);
    TriangleGap(base(k) + n, base(k) + m, base(k), mark(k));
    assert (base(k) + m) - (base(k) + n) == m - n && (m - n) as real == m as real - n as real;
    assert Times(mark(k) as real, m as real - n as real)
        == Times(mark(k) as real, m as real) - Times(mark(k) as real, n as real);
  }

  /** A supported run ends with the least potential of all runs on the same pools. */
  lemma SupportedIsLeast(mark: string -> int, run: seq<string>, pools: seq<set<string>>, other: seq<string>,
                         base: string -> int, pool: set<string>)
    requires Supports(mark, run, pools, base) && Allowed(other, pools)
    requires Within(run, pool) && Within(other, pool)
    ensures SetSum(pool, FinalTriangle(run, base)) <= SetSum(pool, FinalTriangle(other, base))
  {
    SumPointwise(run, other, RealMark(mark));
    MarksAlongRun(mark, run, pool);
    MarksAlongRun(mark, other, pool);
    var low := Plus(FinalTriangle(run, base), MarkedLoad(mark, other));
    var high := Plus(FinalTriangle(other, base), MarkedLoad(mark, run));
    SetSumPlus(pool, low, FinalTriangle(run, base), MarkedLoad(mark, other));
    SetSumPlus(pool, high, FinalTriangle(other, base), MarkedLoad(mark, run));
    forall k | k in pool
      ensures low(k) <= high(k)
    {
      RisesByMark(mark, run, pools, other, base, k);
    }
    hide Supports, FinalTriangle, MarkedLoad, Allowed;
    SetSumMonotone(pool, low, high);
  }

  // ----- one pool for all -----

  /** A level run ends with the least potential of all runs of its length. */
  lemma LevelHasLeastPotential(run: seq<string>, other: seq<string>, base: string -> int, pool: set<string>)
    requires Within(run, pool) && Within(other, pool) && |run| == |other|
    requires Level(run, base, pool)
    ensures SetSum(pool, FinalTriangle(run, base)) <= SetSum(pool, FinalTriangle(other, base))
  {
    if pool != {} {
      var m := ShallowestQueue(run, base, pool);
      var floor := Final(run, base, m);
      var pools := seq(|run|, i requires 0 <= i < |run| => pool);
      var mark := k => if k in pool then floor else Final(run, base, k);
      forall k | Load(run, k) > 0
        ensures k in pool
      {
        LoadedIsUsed(run, k);
      }
      SupportedIsLeast(mark, run, pools, other, base, pool);
    }
  }

  lemma {:induction false} LoadedIsUsed(run: seq<string>, k: string)
    ensures Load(run, k) > 0 <==> k in run
  {
    if run != [] {
      LoadedIsUsed(run[..|run| - 1], k);
      assert run == run[..|run| - 1] + [run[|run| - 1]];
    }
  }

  /** A level run meets the least total depth of all ways to spread as many items over the pool. */
  lemma LevelIsOptimal(run: seq<string>, other: seq<string>, base: string -> int, pool: set<string>)
    requires Within(run, pool) && Within(other, pool) && |run| == |other|
    requires Level(run, base, pool)
    ensures DepthMet(run, base) <= DepthMet(other, base)
  {
    DepthMetIsPotential(run, base, pool);
    DepthMetIsPotential(other, base, pool);
    LevelHasLeastPotential(run, other, base, pool);
  }

  /** Putting the next item on a shallowest queue keeps a run level. */
  lemma ShortestKeepsLevel(run: seq<string>, k: string, base: string -> int, pool: set<string>)
    requires Level(run, base, pool) && k in pool
    requires forall j | j in pool :: Final(run, base, k) <= Final(run, base, j)
    ensures Level(run + [k], base, pool)
  {
    assert (run + [k])[..|run|] == run;
  }
}
