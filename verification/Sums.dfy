/** Finite sums of reals over sequences and sets. Every weighted total of the model is one of these. */
module Sums {
  import opened Reals


  function Sum<T>(s: seq<T>, f: T -> real): real {
    if s == [] then 0.0 else f(s[0]) + Sum(s[1..], f)
  }

  lemma {:induction false} SumAppend<T>(s: seq<T>, t: seq<T>, f: T -> real)
    ensures Sum(s + t, f) == Sum(s, f) + Sum(t, f)
  {
    if s == [] {
      assert s + t == t;
    } else {
      assert (s + t)[0] == s[0] && (s + t)[1..] == s[1..] + t;
      SumAppend(s[1..], t, f);
    }
  }

  lemma SumSnoc<T>(s: seq<T>, x: T, f: T -> real)
    ensures Sum(s + [x], f) == Sum(s, f) + f(x)
  {
    SumAppend(s, [x], f);
  }

  /** Taking out the element at position i takes out its term. */
  lemma SumRemove<T>(s: seq<T>, i: nat, f: T -> real)
    requires i < |s|
    ensures Sum(s, f) == f(s[i]) + Sum(s[..i] + s[i + 1..], f)
  {
    hide Sum;
    var a, b := s[..i], s[i + 1..];
    assert s == a + [s[i]] + b;
    SumAppend(a + [s[i]], b, f);
    SumSnoc(a, s[i], f);
    SumAppend(a, b, f);
  }

  /** Two arrangements of one multiset agree after the same element is taken out of both. */
  lemma MatchFirst<T>(s: seq<T>, t: seq<T>) returns (i: nat)
    requires s != [] && multiset(s) == multiset(t)
    ensures i < |t| && t[i] == s[0]
    ensures multiset(s[1..]) == multiset(t[..i] + t[i + 1..])
  {
    assert s[0] in multiset(t);
    i :| 0 <= i < |t| && t[i] == s[0];
    assert t == t[..i] + [t[i]] + t[i + 1..];
    assert s == [s[0]] + s[1..];
    var rest := t[..i] + t[i + 1..];
    assert multiset(t) == multiset{s[0]} + multiset(rest);
    assert multiset(s) == multiset{s[0]} + multiset(s[1..]);
    assert multiset(s[1..]) == multiset(s) - multiset{s[0]};
    assert multiset(rest) == multiset(t) - multiset{s[0]};
  }

  /** A sum only depends on the multiset of its terms. */
  lemma {:induction false} SumPermutation<T>(s: seq<T>, t: seq<T>, f: T -> real)
    requires multiset(s) == multiset(t)
    ensures Sum(s, f) == Sum(t, f)
  {
    if s == [] {
      assert |t| == |multiset(t)| == 0;
    } else {
      var i := MatchFirst(s, t);
      SumPermutation(s[1..], t[..i] + t[i + 1..], f);
      SumRemove(t, i, f);
    }
  }

  lemma {:induction false} SumCongruent<T>(s: seq<T>, f: T -> real, g: T -> real)
    requires forall x | x in s :: f(x) == g(x)
    ensures Sum(s, f) == Sum(s, g)
  {
    if s != [] {
      SumCongruent(s[1..], f, g);
    }
  }

  lemma {:induction false} SumScale<T>(s: seq<T>, h: T -> real, a: real, f: T -> real)
    requires forall x | x in s :: h(x) == Times(a, f(x))
    ensures Sum(s, h) == Times(a, Sum(s, f))
  {
    hide Times;
    Distribute(a, 0.0, 0.0);
    if s != [] {
      SumScale(s[1..], h, a, f);
      Distribute(a, f(s[0]), Sum(s[1..], f));
    }
  }

  lemma {:induction false} SumPlus<T>(s: seq<T>, h: T -> real, f: T -> real, g: T -> real)
    requires forall x | x in s :: h(x) == f(x) + g(x)
    ensures Sum(s, h) == Sum(s, f) + Sum(s, g)
  {
    if s != [] {
      SumPlus(s[1..], h, f, g);
    }
  }

  lemma {:induction false} SumConstant<T>(s: seq<T>, f: T -> real, c: real)
    requires forall x | x in s :: f(x) == c
    ensures Sum(s, f) == |s| as real * c
  {
    if s != [] {
      SumConstant(s[1..], f, c);
    }
  }

  lemma {:induction false} SumMonotone<T>(s: seq<T>, f: T -> real, g: T -> real)
    requires forall x | x in s :: f(x) <= g(x)
    ensures Sum(s, f) <= Sum(s, g)
  {
    if s != [] {
      SumMonotone(s[1..], f, g);
    }
  }

  lemma {:induction false} SumNonNegative<T>(s: seq<T>, f: T -> real)
    requires forall x | x in s :: f(x) >= 0.0
    ensures Sum(s, f) >= 0.0
    ensures Sum(s, f) == 0.0 <==> forall x | x in s :: f(x) == 0.0
  {
    if s != [] {
      SumNonNegative(s[1..], f);
    }
  }

  // ----- double sums -----

  function Row<S, T>(f: (S, T) -> real, x: S): T -> real {
    y => f(x, y)
  }

  function Flip<S, T>(f: (S, T) -> real): (T, S) -> real {
    (y, x) => f(x, y)
  }

  function RowSum<S, T>(f: (S, T) -> real, t: seq<T>): S -> real {
    x => Sum(t, Row(f, x))
  }

  /** The sum of f(x, y) over all x in s and all y in t. */
  function DoubleSum<S, T>(s: seq<S>, t: seq<T>, f: (S, T) -> real): real {
    Sum(s, RowSum(f, t))
  }

  lemma {:induction false} DoubleSumConsRight<S, T>(s: seq<S>, y: T, t: seq<T>, f: (S, T) -> real)
    ensures DoubleSum(s, [y] + t, f) == Sum(s, Row(Flip(f), y)) + DoubleSum(s, t, f)
  {
    if s != [] {
      DoubleSumConsRight(s[1..], y, t, f);
      var x := s[0];
      assert ([y] + t)[1..] == t;
      assert RowSum(f, [y] + t)(x) == f(x, y) + RowSum(f, t)(x);
    }
  }

  lemma {:induction false} DoubleSumSwap<S, T>(s: seq<S>, t: seq<T>, f: (S, T) -> real)
    ensures DoubleSum(s, t, f) == DoubleSum(t, s, Flip(f))
  {
    if t == [] {
      SumConstant(s, RowSum(f, t), 0.0);
    } else {
      assert t == [t[0]] + t[1..];
      DoubleSumConsRight(s, t[0], t[1..], f);
      DoubleSumSwap(s, t[1..], f);
    }
  }

  lemma DoubleSumAppendRight<S, T>(s: seq<S>, t: seq<T>, u: seq<T>, f: (S, T) -> real)
    ensures DoubleSum(s, t + u, f) == DoubleSum(s, t, f) + DoubleSum(s, u, f)
  {
    forall x | x in s
      ensures RowSum(f, t + u)(x) == RowSum(f, t)(x) + RowSum(f, u)(x)
    {
      SumAppend(t, u, Row(f, x));
    }
    SumPlus(s, RowSum(f, t + u), RowSum(f, t), RowSum(f, u));
  }

  lemma DoubleSumPlus<S, T>(s: seq<S>, t: seq<T>, h: (S, T) -> real, f: (S, T) -> real, g: (S, T) -> real)
    requires forall x, y | x in s && y in t :: h(x, y) == f(x, y) + g(x, y)
    ensures DoubleSum(s, t, h) == DoubleSum(s, t, f) + DoubleSum(s, t, g)
  {
    forall x | x in s
      ensures RowSum(h, t)(x) == RowSum(f, t)(x) + RowSum(g, t)(x)
    {
      SumPlus(t, Row(h, x), Row(f, x), Row(g, x));
    }
    SumPlus(s, RowSum(h, t), RowSum(f, t), RowSum(g, t));
  }

  /** Over a pairing of one unit for every two elements. */
  lemma AllPairs<S, T>(s: seq<S>, t: seq<T>, f: (S, T) -> real)
    requires forall x, y | x in s && y in t :: f(x, y) == 1.0
    ensures DoubleSum(s, t, f) == |s| as real * |t| as real
  {
    hide Sum;
    forall x | x in s
      ensures RowSum(f, t)(x) == |t| as real
    {
      SumConstant(t, Row(f, x), 1.0);
    }
    SumConstant(s, RowSum(f, t), |t| as real);
  }

  /** The sum of whole numbers. */
  function Total(q: seq<int>): int {
    if q == [] then 0 else Total(q[..|q| - 1]) + q[|q| - 1]
  }

  // ----- sums over finite sets (dictionary keys, in whatever order they are visited) -----

  /** How often x occurs. */
  function Count<T(==)>(s: seq<T>, x: T): nat {
    if s == [] then 0 else (if s[0] == x then 1 else 0) + Count(s[1..], x)
  }

  lemma {:induction false} CountSnoc<T>(s: seq<T>, y: T, x: T)
    ensures Count(s + [y], x) == Count(s, x) + if y == x then 1 else 0
  {
    if s == [] {
      assert [y][1..] == [];
    } else {
      assert (s + [y])[1..] == s[1..] + [y];
      CountSnoc(s[1..], y, x);
    }
  }

  ghost function SetSum<K>(s: set<K>, f: K -> real): real {
    if s == {} then 0.0 else var k :| k in s; f(k) + SetSum(s - {k}, f)
  }

  lemma {:induction false} SetSumRemove<K>(s: set<K>, k: K, f: K -> real)
    requires k in s
    ensures SetSum(s, f) == f(k) + SetSum(s - {k}, f)
  {
    var c :| c in s && SetSum(s, f) == f(c) + SetSum(s - {c}, f);
    if c != k {
      SetSumRemove(s - {c}, k, f);
      SetSumRemove(s - {k}, c, f);
      assert s - {c} - {k} == s - {k} - {c};
    }
  }

  lemma SetSumAdd<K>(s: set<K>, k: K, f: K -> real)
    requires k !in s
    ensures SetSum(s + {k}, f) == SetSum(s, f) + f(k)
  {
    SetSumRemove(s + {k}, k, f);
    assert s + {k} - {k} == s;
  }

  lemma {:induction false} SetSumCongruent<K>(s: set<K>, f: K -> real, g: K -> real)
    requires forall k | k in s :: f(k) == g(k)
    ensures SetSum(s, f) == SetSum(s, g)
  {
    if s != {} {
      var k :| k in s;
      SetSumRemove(s, k, f);
      SetSumRemove(s, k, g);
      SetSumCongruent(s - {k}, f, g);
    }
  }

  lemma {:induction false} SetSumPlus<K>(s: set<K>, h: K -> real, f: K -> real, g: K -> real)
    requires forall k | k in s :: h(k) == f(k) + g(k)
    ensures SetSum(s, h) == SetSum(s, f) + SetSum(s, g)
  {
    if s != {} {
      var k :| k in s;
      SetSumRemove(s, k, f);
      SetSumRemove(s, k, g);
      SetSumRemove(s, k, h);
      SetSumPlus(s - {k}, h, f, g);
    }
  }

  lemma {:induction false} SetSumScale<K>(s: set<K>, h: K -> real, a: real, f: K -> real)
    requires forall k | k in s :: h(k) == Times(a, f(k))
    ensures SetSum(s, h) == Times(a, SetSum(s, f))
  {
    hide Times;
    Distribute(a, 0.0, 0.0);
    if s != {} {
      var k :| k in s;
      SetSumRemove(s, k, f);
      SetSumRemove(s, k, h);
      SetSumScale(s - {k}, h, a, f);
      Distribute(a, f(k), SetSum(s - {k}, f));
    }
  }

  lemma {:induction false} SetSumConstant<K>(s: set<K>, f: K -> real, c: real)
    requires forall k | k in s :: f(k) == c
    ensures SetSum(s, f) == |s| as real * c
  {
    if s != {} {
      var k :| k in s;
      SetSumRemove(s, k, f);
      SetSumConstant(s - {k}, f, c);
    }
  }

  lemma {:induction false} SetSumNonNegative<K>(s: set<K>, f: K -> real)
    requires forall k | k in s :: f(k) >= 0.0
    ensures SetSum(s, f) >= 0.0
    ensures SetSum(s, f) == 0.0 <==> forall k | k in s :: f(k) == 0.0
  {
    if s != {} {
      var k :| k in s;
      SetSumRemove(s, k, f);
      SetSumNonNegative(s - {k}, f);
    }
  }

  lemma {:induction false} SetSumMonotone<K>(s: set<K>, f: K -> real, g: K -> real)
    requires forall k | k in s :: f(k) <= g(k)
    ensures SetSum(s, f) <= SetSum(s, g)
  {
    if s != {} {
      var k :| k in s;
      SetSumRemove(s, k, f);
      SetSumRemove(s, k, g);
      SetSumMonotone(s - {k}, f, g);
    }
  }

  lemma {:induction false} SetSumUnion<K>(s: set<K>, t: set<K>, f: K -> real)
    requires s !! t
    ensures SetSum(s + t, f) == SetSum(s, f) + SetSum(t, f)
  {
    if t == {} {
      assert s + t == s;
    } else {
      var k :| k in t;
      SetSumRemove(t, k, f);
      SetSumRemove(s + t, k, f);
      assert s + t - {k} == s + (t - {k});
      SetSumUnion(s, t - {k}, f);
    }
  }

  /** Keys on which f vanishes can be added freely. */
  lemma {:induction false} SetSumPad<K>(s: set<K>, t: set<K>, f: K -> real)
    requires s <= t
    requires forall k | k in t && k !in s :: f(k) == 0.0
    ensures SetSum(t, f) == SetSum(s, f)
  {
    if s != t {
      var k :| k in t && k !in s;
      SetSumRemove(t, k, f);
      SetSumPad(s, t - {k}, f);
    }
  }

  function Compose<J, K>(f: K -> real, g: J -> K): J -> real {
    j => f(g(j))
  }

  /** A sum over the image of an injective renaming is the sum over the original keys. */
  lemma {:induction false} SetSumRenamed<J, K>(s: set<J>, image: set<K>, g: J -> K, f: K -> real)
    requires forall i, j | i in s && j in s :: g(i) == g(j) ==> i == j
    requires image == set j | j in s :: g(j)
    ensures SetSum(s, Compose(f, g)) == SetSum(image, f)
  {
    if s != {} {
      var j :| j in s;
      assert g(j) in image;
      SetSumRenamed(s - {j}, image - {g(j)}, g, f);
      SetSumRemove(s, j, Compose(f, g));
      SetSumRemove(image, g(j), f);
    }
  }

  ghost function SetRowSum<J, K>(f: (J, K) -> real, t: set<K>): J -> real {
    j => SetSum(t, Row(f, j))
  }

  /** The order of two summations over finite sets can be exchanged. */
  lemma {:induction false} SetSumExchange<J, K>(s: set<J>, t: set<K>, f: (J, K) -> real)
    ensures SetSum(s, SetRowSum(f, t)) == SetSum(t, SetRowSum(Flip(f), s))
  {
    if s == {} {
      SetSumConstant(t, SetRowSum(Flip(f), s), 0.0);
    } else {
      var j :| j in s;
      var rest := s - {j};
      SetSumExchange(rest, t, f);
      SetSumRemove(s, j, SetRowSum(f, t));
      forall k | k in t
        ensures SetRowSum(Flip(f), s)(k) == Row(f, j)(k) + SetRowSum(Flip(f), rest)(k)
      {
        SetSumRemove(s, j, Row(Flip(f), k));
      }
      SetSumPlus(t, SetRowSum(Flip(f), s), Row(f, j), SetRowSum(Flip(f), rest));
    }
  }

  // ----- grouping a sequence into a dictionary of lists -----

  function Bucket<K, T>(groups: map<K, seq<T>>, k: K): seq<T> {
    if k in groups then groups[k] else []
  }

  function Append<K, T>(groups: map<K, seq<T>>, k: K, x: T): map<K, seq<T>> {
    groups[k := Bucket(groups, k) + [x]]
  }

  function BucketSum<K, T>(groups: map<K, seq<T>>, f: T -> real): K -> real {
    k => Sum(Bucket(groups, k), f)
  }

  /** The total over all buckets of a dictionary of lists. */
  ghost function GroupedSum<K, T>(groups: map<K, seq<T>>, f: T -> real): real {
    SetSum(groups.Keys, BucketSum(groups, f))
  }

  lemma GroupedSumAppend<K, T>(groups: map<K, seq<T>>, k: K, x: T, f: T -> real)
    ensures GroupedSum(Append(groups, k, x), f) == GroupedSum(groups, f) + f(x)
  {
    var after := Append(groups, k, x);
    SumSnoc(Bucket(groups, k), x, f);
    SetSumRemove(after.Keys, k, BucketSum(after, f));
    SetSumCongruent(groups.Keys - {k}, BucketSum(groups, f), BucketSum(after, f));
    assert after.Keys - {k} == groups.Keys - {k};
    if k in groups {
      SetSumRemove(groups.Keys, k, BucketSum(groups, f));
    } else {
      assert groups.Keys - {k} == groups.Keys;
    }
  }

  /** The dictionary of lists that `setdefault(key(x), []).append(x)` builds over a sequence. */
  function Grouped<K(==), T>(s: seq<T>, key: T -> K): map<K, seq<T>> {
    if s == [] then map[]
    else Append(Grouped(s[..|s| - 1], key), key(s[|s| - 1]), s[|s| - 1])
  }

  function Filtered<K(==), T>(s: seq<T>, key: T -> K, k: K): seq<T> {
    if s == [] then []
    else Filtered(s[..|s| - 1], key, k) + if key(s[|s| - 1]) == k then [s[|s| - 1]] else []
  }

  lemma GroupedSnoc<K, T>(s: seq<T>, x: T, key: T -> K)
    ensures Grouped(s + [x], key) == Append(Grouped(s, key), key(x), x)
  {
    assert (s + [x])[..|s|] == s;
  }

  lemma {:induction false} BucketIsFiltered<K, T>(s: seq<T>, key: T -> K, k: K)
    ensures Bucket(Grouped(s, key), k) == Filtered(s, key, k)
    ensures k in Grouped(s, key) ==> Filtered(s, key, k) != []
  {
    if s != [] {
      BucketIsFiltered(s[..|s| - 1], key, k);
    }
  }

  lemma {:induction false} FilteredHaveKey<K, T>(s: seq<T>, key: T -> K, k: K)
    ensures forall x | x in Filtered(s, key, k) :: key(x) == k && x in s
  {
    if s != [] {
      FilteredHaveKey(s[..|s| - 1], key, k);
    }
  }

  lemma {:induction false} FilteredMultiset<K, T>(s: seq<T>, key: T -> K, k: K, x: T)
    ensures multiset(Filtered(s, key, k))[x] == if key(x) == k then multiset(s)[x] else 0
  {
    if s != [] {
      var front, last := s[..|s| - 1], s[|s| - 1];
      assert s == front + [last];
      FilteredMultiset(front, key, k, x);
    }
  }

  lemma {:induction false} FilteredAll<K, T>(s: seq<T>, key: T -> K, k: K)
    requires forall x | x in s :: key(x) == k
    ensures Filtered(s, key, k) == s
  {
    if s != [] {
      var front, last := s[..|s| - 1], s[|s| - 1];
      assert s == front + [last] && last in s;
      FilteredAll(front, key, k);
    }
  }

  function OnlyKey<K(==), T>(key: T -> K, k: K, f: T -> real): T -> real {
    x => if key(x) == k then f(x) else 0.0
  }

  lemma {:induction false} FilteredSum<K, T>(s: seq<T>, key: T -> K, k: K, f: T -> real)
    ensures Sum(Filtered(s, key, k), f) == Sum(s, OnlyKey(key, k, f))
  {
    if s != [] {
      var front, last := s[..|s| - 1], s[|s| - 1];
      assert s == front + [last];
      FilteredSum(front, key, k, f);
      SumSnoc(front, last, OnlyKey(key, k, f));
      if key(last) == k {
        SumSnoc(Filtered(front, key, k), last, f);
      } else {
        assert Filtered(s, key, k) == Filtered(front, key, k);
      }
    }
  }

  /** Grouping loses nothing: the buckets together have the sum of the sequence. */
  lemma {:induction false} GroupingKeepsSum<K, T>(s: seq<T>, key: T -> K, f: T -> real)
    ensures GroupedSum(Grouped(s, key), f) == Sum(s, f)
  {
    if s != [] {
      var front, last := s[..|s| - 1], s[|s| - 1];
      assert s == front + [last];
      GroupingKeepsSum(front, key, f);
      SumSnoc(front, last, f);
      GroupedSumAppend(Grouped(front, key), key(last), last, f);
    }
  }

  function Constant<T>(c: real): T -> real {
    _ => c
  }

  function Self(): real -> real {
    x => x
  }
}
