/** How concentrated a run's tasks are: Herfindahl indices over platforms and over nodes. */
module Concentration {
  import opened Reals
  import opened Sorting
  import opened Sums

  datatype Reading =
    | NoPlatform
    | Reading(platformsUsed: nat, nodesUsed: nat, platformHhi: real, nodeHhi: real, busiestPct: real)
  {
    function EffectivePlatforms(): real
      requires Reading? && platformHhi != 0.0
    {
      1.0 / platformHhi
    }

    function EffectiveNodes(): real
      requires Reading? && nodeHhi != 0.0
    {
      1.0 / nodeHhi
    }
  }

  /** key.split(":")[0] */
  function NodeOf(key: string): string {
    if key == [] || key[0] == ':' then [] else [key[0]] + NodeOf(key[1..])
  }

  /** The node of "node:platform" is the node, if its name has no colon. */
  lemma {:induction false} NodeOfKey(node: string, platform: string)
    requires ':' !in node
    ensures NodeOf(node + ":" + platform) == node
  {
    if node != [] {
      assert (node + ":" + platform)[1..] == node[1..] + ":" + platform;
      assert node[0] in node && forall c | c in node[1..] :: c in node;
      NodeOfKey(node[1..], platform);
    }
  }

  function Nodes(keys: seq<string>): seq<string> {
    Map(keys, NodeOf)
  }

  function Used(keys: seq<string>): set<string> {
    set k | k in keys
  }

  function SquareOf(x: real): real {
    Times(x, x)
  }

  function Inverse(x: real): real {
    if x == 0.0 then 0.0 else 1.0 / x
  }

  function ShareSquared(keys: seq<string>): string -> real {
    k => if keys == [] then 0.0 else SquareOf(Count(keys, k) as real / |keys| as real)
  }

  /** The sum over the used keys of their squared shares. */
  ghost function Hhi(keys: seq<string>): real {
    SetSum(Used(keys), ShareSquared(keys))
  }

  // ----- the index counts agreeing pairs -----

  function Equal(k: string, l: string): real {
    if k == l then 1.0 else 0.0
  }

  function Key(): string -> string {
    k => k
  }

  lemma {:induction false} CountIsFiltered(keys: seq<string>, k: string)
    ensures |Filtered(keys, Key(), k)| == Count(keys, k)
    ensures Sum(keys, Row(Equal, k)) == Count(keys, k) as real
  {
    if keys != [] {
      var front, last := keys[..|keys| - 1], keys[|keys| - 1];
      assert keys == front + [last];
      CountIsFiltered(front, k);
      CountSnoc(front, last, k);
      SumSnoc(front, last, Row(Equal, k));
    }
  }

  lemma {:induction false} GroupedUsed(keys: seq<string>)
    ensures Grouped(keys, Key()).Keys == Used(keys)
  {
    if keys != [] {
      var front, last := keys[..|keys| - 1], keys[|keys| - 1];
      assert keys == front + [last];
      GroupedUsed(front);
    }
  }

  function CountSquared(keys: seq<string>): string -> real {
    k => SquareOf(Count(keys, k) as real)
  }

  lemma {:induction false} ConstantSum(s: seq<string>, f: string -> real, c: real)
    requires forall k | k in s :: f(k) == c
    ensures Sum(s, f) == Times(|s| as real, c)
  {
    SumConstant(s, f, c);
    TimesIs(|s| as real, c);
  }

  lemma BucketSquare(keys: seq<string>, k: string)
    ensures BucketSum(Grouped(keys, Key()), RowSum(Equal, keys))(k) == CountSquared(keys)(k)
  {
    hide Times, Grouped, Filtered, Sum;
    BucketIsFiltered(keys, Key(), k);
    FilteredHaveKey(keys, Key(), k);
    CountIsFiltered(keys, k);
    ConstantSum(Filtered(keys, Key(), k), RowSum(Equal, keys), Count(keys, k) as real);
  }

  /** The squared counts add up to the number of ordered pairs of tasks that share a key. */
  lemma SquaresArePairs(keys: seq<string>)
    ensures SetSum(Used(keys), CountSquared(keys)) == DoubleSum(keys, keys, Equal)
  {
    var f := RowSum(Equal, keys);
    var groups := Grouped(keys, Key());
    GroupingKeepsSum(keys, Key(), f);
    GroupedUsed(keys);
    forall k | k in groups
      ensures BucketSum(groups, f)(k) == CountSquared(keys)(k)
    {
      BucketSquare(keys, k);
    }
    hide Sum, Grouped, CountSquared;
    SetSumCongruent(Used(keys), BucketSum(groups, f), CountSquared(keys));
  }

  lemma QuotientSquared(c: real, n: real)
    requires n > 0.0
    ensures SquareOf(c / n) == Times(Inverse(SquareOf(n)), SquareOf(c))
  {
    SquarePositive(n);
    var q, w := c / n, Inverse(SquareOf(n));
    assert q * n == c;
    assert (q * q) * (n * n) == c * c;
    assert w * (n * n) == 1.0;
    assert w * ((q * q) * (n * n)) == (q * q) * (w * (n * n));
  }

  /** So the index is the chance that two tasks drawn with replacement share a key. */
  lemma HhiIsPairShare(keys: seq<string>)
    requires keys != []
    ensures Hhi(keys) == Times(Inverse(SquareOf(|keys| as real)), DoubleSum(keys, keys, Equal))
  {
    hide SquareOf, Times;
    forall k | k in Used(keys)
      ensures ShareSquared(keys)(k) == Times(Inverse(SquareOf(|keys| as real)), CountSquared(keys)(k))
    {
      QuotientSquared(Count(keys, k) as real, |keys| as real);
    }
    SquarePositive(|keys| as real);
    SetSumScale(Used(keys), ShareSquared(keys), Inverse(SquareOf(|keys| as real)), CountSquared(keys));
    SquaresArePairs(keys);
  }

  lemma SquarePositive(n: real)
    ensures n > 0.0 ==> SquareOf(n) > 0.0
    ensures SquareOf(n) >= 0.0
  {
    if n > 0.0 {
      PositiveTimes(n, n);
    } else if n < 0.0 {
      PositiveTimes(-n, -n);
      assert Times(-n, -n) == Times(n, n);
    }
  }

  // ----- the order of the indices -----

  function SameNode(k: string, l: string): real {
    Equal(NodeOf(k), NodeOf(l))
  }

  function Unit(k: string, l: string): real {
    1.0
  }

  lemma {:induction false} MapSum(keys: seq<string>, f: string -> real, g: string -> real)
    requires forall k | k in keys :: f(NodeOf(k)) == g(k)
    ensures Sum(Nodes(keys), f) == Sum(keys, g)
  {
    if keys != [] {
      assert Nodes(keys)[1..] == Nodes(keys[1..]);
      MapSum(keys[1..], f, g);
    }
  }

  lemma NodePairs(keys: seq<string>)
    ensures DoubleSum(Nodes(keys), Nodes(keys), Equal) == DoubleSum(keys, keys, SameNode)
  {
    forall k | k in keys
      ensures RowSum(Equal, Nodes(keys))(NodeOf(k)) == RowSum(SameNode, keys)(k)
    {
      MapSum(keys, Row(Equal, NodeOf(k)), Row(SameNode, k));
    }
    MapSum(keys, RowSum(Equal, Nodes(keys)), RowSum(SameNode, keys));
  }

  lemma DoubleSumMonotone(s: seq<string>, f: (string, string) -> real, g: (string, string) -> real)
    requires forall k, l :: f(k, l) <= g(k, l)
    ensures DoubleSum(s, s, f) <= DoubleSum(s, s, g)
  {
    forall k | k in s
      ensures RowSum(f, s)(k) <= RowSum(g, s)(k)
    {
      SumMonotone(s, Row(f, k), Row(g, k));
    }
    SumMonotone(s, RowSum(f, s), RowSum(g, s));
  }

  /** Tasks on one platform are on one node, so pairs that share a platform share a node. */
  lemma PairsOrdered(keys: seq<string>)
    ensures DoubleSum(keys, keys, Equal) <= DoubleSum(Nodes(keys), Nodes(keys), Equal) <= SquareOf(|keys| as real)
  {
    NodePairs(keys);
    AllPairs(keys, keys, Unit);
    TimesIs(|keys| as real, |keys| as real);
    DoubleSumMonotone(keys, Equal, SameNode);
    DoubleSumMonotone(keys, SameNode, Unit);
  }

  // ----- the lower bound -----

  function CountOf(keys: seq<string>): string -> real {
    k => Count(keys, k) as real
  }

  function One(k: string): real {
    1.0
  }

  lemma BucketSize(keys: seq<string>, k: string)
    ensures BucketSum(Grouped(keys, Key()), One)(k) == CountOf(keys)(k)
  {
    hide Sum, Grouped, Count, Filtered, Bucket;
    var groups, f := Grouped(keys, Key()), Filtered(keys, Key(), k);
    BucketIsFiltered(keys, Key(), k);
    assert BucketSum(groups, One)(k) == Sum(f, One);
    hide BucketSum;
    CountIsFiltered(keys, k);
    SumConstant(f, One, 1.0);
  }

  lemma GroupSizes(keys: seq<string>)
    ensures SetSum(Used(keys), CountOf(keys)) == GroupedSum(Grouped(keys, Key()), One)
  {
    var groups := Grouped(keys, Key());
    GroupedUsed(keys);
    forall k | k in Used(keys)
      ensures BucketSum(groups, One)(k) == CountOf(keys)(k)
    {
      BucketSize(keys, k);
    }
    SetSumCongruent(Used(keys), BucketSum(groups, One), CountOf(keys));
  }

  lemma CountsTotal(keys: seq<string>)
    ensures SetSum(Used(keys), CountOf(keys)) == |keys| as real
  {
    hide Sum, SetSum, GroupedSum, Grouped, CountOf, Used;
    GroupSizes(keys);
    GroupingKeepsSum(keys, Key(), One);
    SumConstant(keys, One, 1.0);
  }

  function TangentBelow(m: real, keys: seq<string>): string -> real {
    k => Times(2.0 * m, CountOf(keys)(k)) - SquareOf(m)
  }

  lemma TangentLine(m: real, c: real)
    ensures Times(2.0 * m, c) - SquareOf(m) <= SquareOf(c)
  {
    SquarePositive(c - m);
    assert SquareOf(c - m) == c * c - 2.0 * m * c + m * m;
  }

  lemma TangentAt(m: real, keys: seq<string>, k: string)
    ensures TangentBelow(m, keys)(k) <= CountSquared(keys)(k)
  {
    hide Times;
    var c := Count(keys, k) as real;
    TangentLine(m, c);
    assert TangentBelow(m, keys)(k) == Times(2.0 * m, CountOf(keys)(k)) - SquareOf(m);
    assert CountSquared(keys)(k) == SquareOf(c);
  }

  function Scaled(m: real, keys: seq<string>): string -> real {
    k => Times(2.0 * m, CountOf(keys)(k))
  }

  /** Summing the tangents: 2 m n - N m^2 for any slope m. */
  lemma TangentSum(keys: seq<string>, m: real)
    ensures SetSum(Used(keys), TangentBelow(m, keys))
         == Times(2.0 * m, |keys| as real) - |Used(keys)| as real * SquareOf(m)
  {
    hide SquareOf, Times, CountOf, Count;
    SetSumPlus(Used(keys), Scaled(m, keys), TangentBelow(m, keys), Constant(SquareOf(m)));
    SetSumScale(Used(keys), Scaled(m, keys), 2.0 * m, CountOf(keys));
    SetSumConstant(Used(keys), Constant(SquareOf(m)), SquareOf(m));
    CountsTotal(keys);
  }

  lemma TangentsBelow(keys: seq<string>, m: real)
    ensures SetSum(Used(keys), TangentBelow(m, keys)) <= SetSum(Used(keys), CountSquared(keys))
  {
    forall k | k in Used(keys)
      ensures TangentBelow(m, keys)(k) <= CountSquared(keys)(k)
    {
      TangentAt(m, keys, k);
    }
    hide TangentBelow, CountSquared;
    SetSumMonotone(Used(keys), TangentBelow(m, keys), CountSquared(keys));
  }

  /** The squares are least when the tasks are spread evenly: at least n * n / N over N keys. */
  lemma SquaresAtLeast(keys: seq<string>)
    requires keys != []
    ensures |Used(keys)| > 0
    ensures SetSum(Used(keys), CountSquared(keys)) >= SquareOf(|keys| as real) / |Used(keys)| as real
  {
    hide SquareOf, Times, TangentBelow, CountSquared;
    assert keys[0] in Used(keys);
    var n, size := |keys| as real, |Used(keys)| as real;
    TangentsBelow(keys, n / size);
    TangentSum(keys, n / size);
    EvenSpread(n, size);
  }

  lemma EvenSpread(n: real, size: real)
    requires size > 0.0
    ensures Times(2.0 * (n / size), n) - size * SquareOf(n / size) == SquareOf(n) / size
  {
    var m := n / size;
    assert m * size == n;
    assert size * (m * m) == m * n;
    var q := SquareOf(n) / size;
    assert q * size == n * n;
    assert Times(q - m * n, size) == n * n - n * (m * size);
    ZeroFactor(q - m * n, size);
  }

  lemma ZeroFactor(x: real, size: real)
    requires size > 0.0 && Times(x, size) == 0.0
    ensures x == 0.0
  {
    assert Times(-x, size) == -Times(x, size);
    if x > 0.0 {
      PositiveTimes(x, size);
    } else if x < 0.0 {
      PositiveTimes(-x, size);
    }
  }

  lemma NonNegativeFactor(x: real, size: real)
    requires size > 0.0 && Times(x, size) >= 0.0
    ensures x >= 0.0
  {
    assert Times(-x, size) == -Times(x, size);
    if x < 0.0 {
      PositiveTimes(-x, size);
    }
  }

  lemma InverseOrder(w: real, x: real, y: real)
    requires w > 0.0 && x <= y
    ensures Times(Inverse(w), x) <= Times(Inverse(w), y)
    ensures Times(Inverse(w), w) == 1.0
  {
    var i, d := Inverse(w), y - x;
    assert i * w == 1.0;
    NonNegativeFactor(i, w);
    assert i * d >= 0.0;
    assert i * y == i * x + i * d;
  }

  lemma FractionOfWhole(s: real, size: real)
    requires s > 0.0 && size > 0.0
    ensures Times(Inverse(s), s / size) == 1.0 / size
  {
    var i, q, b := Inverse(s), s / size, 1.0 / size;
    assert i * s == 1.0 && q * size == s && b * size == 1.0;
    assert (i * q) * size == i * (q * size);
    assert Times(i * q - b, size) == 0.0;
    ZeroFactor(i * q - b, size);
  }

  /** 1 / platforms <= platform index <= node index <= 1, whatever the assignment of tasks to platforms. */
  lemma IndicesOrdered(keys: seq<string>)
    requires keys != []
    ensures |Used(keys)| > 0
    ensures 1.0 / |Used(keys)| as real <= Hhi(keys) <= Hhi(Nodes(keys)) <= 1.0
  {
    var s := SquareOf(|keys| as real);
    SquarePositive(|keys| as real);
    HhiIsPairShare(keys);
    HhiIsPairShare(Nodes(keys));
    PairsOrdered(keys);
    SquaresAtLeast(keys);
    SquaresArePairs(keys);
    var pairs, nodePairs := DoubleSum(keys, keys, Equal), DoubleSum(Nodes(keys), Nodes(keys), Equal);
    hide SquareOf, Times, DoubleSum, Hhi, Inverse;
    InverseOrder(s, s / |Used(keys)| as real, pairs);
    InverseOrder(s, pairs, nodePairs);
    InverseOrder(s, nodePairs, s);
    FractionOfWhole(s, |Used(keys)| as real);
  }

  // ----- the busiest platform -----

  /** The count of a busiest key. */
  ghost predicate Busiest(keys: seq<string>, b: nat) {
    (exists k :: k in keys && Count(keys, k) == b) && forall k | k in keys :: Count(keys, k) <= b
  }

  function ShareBound(keys: seq<string>, scale: real): string -> real {
    k => Times(scale, CountOf(keys)(k))
  }

  lemma ShareBelow(c: real, b: real, n: real)
    requires 0.0 <= c <= b && n > 0.0
    ensures SquareOf(c / n) <= Times(b / n / n, c)
  {
    var s, w := c / n, b / n;
    assert s * n == c && w * n == b;
    NonNegativeQuotient(c, n);
    NonNegativeQuotient(b - c, n);
    assert w - s == (b - c) / n;
    NonNegativeTimes(s, w - s);
    var v := w / n;
    assert v * n == w;
    assert v * c == (v * n) * s;
  }

  lemma BackToShare(b: real, n: real)
    requires n > 0.0
    ensures Times(b / n / n, n) == b / n
  {
    TimesQuotient(b / n, n);
  }

  /** The index never exceeds the share of the busiest key. */
  lemma IndexWithinBusiest(keys: seq<string>, b: nat)
    requires keys != [] && Busiest(keys, b)
    ensures Hhi(keys) <= b as real / |keys| as real
  {
    hide ShareSquared, ShareBound, CountOf, Times, Busiest;
    var n := |keys| as real;
    var scale := b as real / n / n;
    forall k | k in Used(keys)
      ensures ShareSquared(keys)(k) <= ShareBound(keys, scale)(k)
    {
      ShareOfKey(keys, b, k);
    }
    BusiestTotal(keys, scale);
    SetSumMonotone(Used(keys), ShareSquared(keys), ShareBound(keys, scale));
    BackToShare(b as real, n);
  }

  lemma ShareOfKey(keys: seq<string>, b: nat, k: string)
    requires k in keys && Busiest(keys, b)
    ensures ShareSquared(keys)(k) <= ShareBound(keys, b as real / |keys| as real / |keys| as real)(k)
  {
    hide SquareOf, Times, Count;
    var c, n := Count(keys, k), |keys| as real;
    assert c <= b && keys != [];
    ShareBelow(c as real, b as real, n);
    assert ShareSquared(keys)(k) == SquareOf(c as real / n);
    assert CountOf(keys)(k) == c as real;
  }

  lemma BusiestTotal(keys: seq<string>, scale: real)
    ensures SetSum(Used(keys), ShareBound(keys, scale)) == Times(scale, |keys| as real)
  {
    hide Times, CountOf;
    SetSumScale(Used(keys), ShareBound(keys, scale), scale, CountOf(keys));
    CountsTotal(keys);
  }

  // ----- the loops -----

  /** max(counts.values()) */
  method Largest(keys: seq<string>, counts: map<string, nat>) returns (b: nat)
    requires keys != [] && counts.Keys == Used(keys) && forall k | k in counts :: counts[k] == Count(keys, k)
    ensures Busiest(keys, b)
  {
    hide Count;
    b := counts[keys[0]];
    var todo := counts.Keys;
    while todo != {}
      invariant todo <= Used(keys) && exists k :: k in keys && Count(keys, k) == b
      invariant forall k | k in keys && k !in todo :: Count(keys, k) <= b
    {
      var k :| k in todo;
      if counts[k] > b {
        b := counts[k];
      }
      todo := todo - {k};
    }
  }

  method Counter(keys: seq<string>) returns (counts: map<string, nat>)
    ensures counts.Keys == Used(keys) && forall k | k in counts :: counts[k] == Count(keys, k)
  {
    counts := map[];
    for i := 0 to |keys|
      invariant counts.Keys == Used(keys[..i])
      invariant forall k | k in counts :: counts[k] == Count(keys[..i], k)
      invariant forall k | k !in counts :: Count(keys[..i], k) == 0
    {
      var k := keys[i];
      assert keys[..i + 1] == keys[..i] + [k];
      forall l
        ensures Count(keys[..i + 1], l) == Count(keys[..i], l) + if l == k then 1 else 0
      {
        CountSnoc(keys[..i], k, l);
      }
      hide Count;
      counts := counts[k := (if k in counts then counts[k] else 0) + 1];
    }
    assert keys[..|keys|] == keys;
  }

  method SquaredShares(keys: seq<string>, counts: map<string, nat>) returns (hhi: real)
    requires keys != [] && counts.Keys == Used(keys) && forall k | k in counts :: counts[k] == Count(keys, k)
    ensures hhi == Hhi(keys)
  {
    hide SquareOf, Count;
    hhi := 0.0;
    var todo := counts.Keys;
    while todo != {}
      invariant todo <= Used(keys)
      invariant hhi + SetSum(todo, ShareSquared(keys)) == Hhi(keys)
    {
      var k :| k in todo;
      SetSumRemove(todo, k, ShareSquared(keys));
      hhi := hhi + SquareOf(counts[k] as real / |keys| as real);
      todo := todo - {k};
    }
  }

  lemma Reciprocal(x: real, y: real)
    requires 0.0 < x <= y
    ensures 1.0 / y <= 1.0 / x
  {
    var a, b := 1.0 / x, 1.0 / y;
    assert a * x == 1.0 && b * y == 1.0;
    NonNegativeFactor(b, y);
    assert b * (y - x) >= 0.0;
    assert Times(a - b, x) == b * (y - x);
    NonNegativeFactor(a - b, x);
  }

  lemma TwiceInverted(n: nat)
    requires n > 0
    ensures 1.0 / n as real > 0.0 && 1.0 / (1.0 / n as real) == n as real
  {
    var i := 1.0 / n as real;
    assert i * n as real == 1.0;
    NonNegativeFactor(i, n as real);
    var j := 1.0 / i;
    assert j * i == 1.0;
    assert Times(j - n as real, i) == 0.0;
    ZeroFactor(j - n as real, i);
  }

  lemma Inverses(n: nat, hhi: real, nodeHhi: real)
    requires n > 0 && 1.0 / n as real <= hhi <= nodeHhi
    ensures 0.0 < hhi && 0.0 < nodeHhi && 1.0 / nodeHhi <= 1.0 / hhi <= n as real
  {
    TwiceInverted(n);
    Reciprocal(hhi, nodeHhi);
    Reciprocal(1.0 / n as real, hhi);
  }

  /** Effective nodes <= effective platforms <= platforms used, and the busiest platform has at least the share that
      the index says. */
  method Concentrate(keys: seq<string>) returns (r: Reading)
    ensures r.NoPlatform? <==> keys == []
    ensures r.Reading? ==>
      && r.platformsUsed == |Used(keys)| && r.nodesUsed == |Used(Nodes(keys))|
      && r.platformHhi == Hhi(keys) && r.nodeHhi == Hhi(Nodes(keys))
      && 0.0 < r.platformHhi && 0.0 < r.nodeHhi
      && r.EffectiveNodes() <= r.EffectivePlatforms() <= r.platformsUsed as real
    ensures r.Reading? ==> exists b: nat :: Busiest(keys, b) && r.busiestPct == Percent(b, |keys|)
    ensures r.Reading? ==> r.busiestPct >= 100.0 * r.platformHhi
  {
    if keys == [] {
      return NoPlatform;
    }
    hide Hhi, Busiest, Count, Used;
    var counts := Counter(keys);
    var nodeCounts := Counter(Nodes(keys));
    var hhi := SquaredShares(keys, counts);
    var nodeHhi := SquaredShares(Nodes(keys), nodeCounts);
    var largest := Largest(keys, counts);
    IndicesOrdered(keys);
    IndexWithinBusiest(keys, largest);
    PercentOf(largest, |keys|, hhi);
    Inverses(|counts.Keys|, hhi, nodeHhi);
    r := Reading(|counts.Keys|, |nodeCounts.Keys|, hhi, nodeHhi, Percent(largest, |keys|));
  }

  /** The busiest share is in percent of all tasks, and no platform has more. */
  lemma BusiestPercent(keys: seq<string>, b: nat)
    requires keys != [] && Busiest(keys, b)
    ensures Percent(b, |keys|) * |keys| as real == 100.0 * b as real
    ensures exists k :: k in keys && Percent(b, |keys|) * |keys| as real == 100.0 * Count(keys, k) as real
    ensures forall k | k in keys :: Percent(b, |keys|) * |keys| as real >= 100.0 * Count(keys, k) as real
  {
  }

  /** The effective numbers are the numbers of equally busy platforms or nodes that have the same index. */
  lemma EffectiveIsInverse(r: Reading)
    requires r.Reading? && r.platformHhi != 0.0 && r.nodeHhi != 0.0
    ensures r.EffectivePlatforms() * r.platformHhi == 1.0 && r.EffectiveNodes() * r.nodeHhi == 1.0
  {
  }

  function Percent(b: nat, n: nat): real
    requires n > 0
  {
    100.0 * b as real / n as real
  }

  lemma PercentOf(b: nat, n: nat, x: real)
    requires n > 0 && x <= b as real / n as real
    ensures 100.0 * x <= Percent(b, n)
  {
    var q := b as real / n as real;
    assert 100.0 * b as real / n as real == 100.0 * q;
  }
}
