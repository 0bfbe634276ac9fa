/** The stable sort that the scripts call through Python's `sorted` and `list.sort`. */
module Sorting {
  import opened Sums

  ghost predicate TotalPreorder<T(!new)>(leq: (T, T) -> bool) {
    && (forall a, b :: leq(a, b) || leq(b, a))
    && (forall a, b, c :: leq(a, b) && leq(b, c) ==> leq(a, c))
  }

  ghost predicate SortedBy<T>(s: seq<T>, leq: (T, T) -> bool) {
    forall i, j | 0 <= i < j < |s| :: leq(s[i], s[j])
  }

  lemma InsertedBefore<T(!new)>(front: seq<T>, x: T, last: T, r: seq<T>, leq: (T, T) -> bool)
    requires multiset(r) == multiset(front) + multiset{x} && leq(x, last)
    requires SortedBy(front + [last], leq)
    ensures forall i | 0 <= i < |r| :: leq(r[i], last)
  {
    var s := front + [last];
    forall i | 0 <= i < |r|
      ensures leq(r[i], last)
    {
      assert r[i] in multiset(r);
      if r[i] != x {
        assert r[i] in multiset(front) && r[i] in front;
        var j :| 0 <= j < |front| && front[j] == r[i];
        assert s[j] == r[i] && s[|front|] == last;
      }
    }
  }

  /** Puts x behind every element that is not strictly greater. */
  function Insert<T(!new)>(s: seq<T>, x: T, leq: (T, T) -> bool): (r: seq<T>)
    requires TotalPreorder(leq) && SortedBy(s, leq)
    ensures multiset(r) == multiset(s) + multiset{x}
    ensures SortedBy(r, leq)
  {
    if s == [] || leq(s[|s| - 1], x) then s + [x]
    else
      var front := s[..|s| - 1];
      var last := s[|s| - 1];
      assert s == front + [last];
      var r := Insert(front, x, leq);
      InsertedBefore(front, x, last, r, leq);
      r + [last]
  }

  function Sort<T(!new)>(s: seq<T>, leq: (T, T) -> bool): (r: seq<T>)
    requires TotalPreorder(leq)
    ensures multiset(r) == multiset(s)
    ensures SortedBy(r, leq)
  {
    if s == [] then []
    else
      assert s == s[..|s| - 1] + [s[|s| - 1]];
      Insert(Sort(s[..|s| - 1], leq), s[|s| - 1], leq)
  }

  function Map<S, T>(s: seq<S>, f: S -> T): (r: seq<T>)
    ensures |r| == |s| && forall i | 0 <= i < |s| :: r[i] == f(s[i])
  {
    seq(|s|, i requires 0 <= i < |s| => f(s[i]))
  }

  lemma {:induction false} MapMultiset<S, T>(s: seq<S>, t: seq<S>, f: S -> T)
    requires multiset(s) == multiset(t)
    ensures multiset(Map(s, f)) == multiset(Map(t, f))
  {
    if s == [] {
      assert |t| == |multiset(t)| == 0;
    } else {
      var i := MatchFirst(s, t);
      var rest := t[..i] + t[i + 1..];
      MapMultiset(s[1..], rest, f);
      assert Map(s, f) == [f(s[0])] + Map(s[1..], f);
      assert Map(t, f) == Map(t[..i], f) + [f(t[i])] + Map(t[i + 1..], f);
      assert Map(rest, f) == Map(t[..i], f) + Map(t[i + 1..], f);
    }
  }

  function Range(n: nat): seq<nat> {
    seq(n, i => i)
  }

  /** An arrangement of 0, ..., n - 1 holds each of them and nothing else. */
  lemma ArrangementOfRange(order: seq<nat>, n: nat)
    requires multiset(order) == multiset(Range(n))
    ensures |order| == n
    ensures forall k | 0 <= k < |order| :: order[k] < n
    ensures forall i | 0 <= i < n :: i in order
  {
    assert |order| == |multiset(order)| == |multiset(Range(n))| == n;
    forall k | 0 <= k < |order|
      ensures order[k] < n
    {
      assert order[k] in multiset(order) && order[k] in Range(n);
    }
    forall i | 0 <= i < n
      ensures i in order
    {
      assert Range(n)[i] == i && i in multiset(Range(n)) && i in multiset(order);
    }
  }

  /** Where x is listed first. */
  function Position<T(==)>(s: seq<T>, x: T): (p: nat)
    requires x in s
    ensures p < |s| && s[p] == x
  {
    if s[0] == x then 0 else 1 + Position(s[1..], x)
  }

  lemma InsertLast<T(!new)>(s: seq<T>, x: T, leq: (T, T) -> bool)
    requires TotalPreorder(leq) && SortedBy(s + [x], leq)
    ensures SortedBy(s, leq) && Insert(s, x, leq) == s + [x]
  {
    var all := s + [x];
    assert forall i | 0 <= i < |s| :: all[i] == s[i] && leq(all[i], all[|s|]);
  }

  lemma {:induction false} SortSorted<T(!new)>(s: seq<T>, leq: (T, T) -> bool)
    requires TotalPreorder(leq) && SortedBy(s, leq)
    ensures Sort(s, leq) == s
  {
    if s != [] {
      var front, last := s[..|s| - 1], s[|s| - 1];
      assert s == front + [last];
      SortSorted(front, leq);
      InsertLast(front, last, leq);
    }
  }
}
