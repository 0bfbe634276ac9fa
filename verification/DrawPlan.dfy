/** The pre-drawn trigger plan: three nested splits of a total, then a sample of every stratum of every cell. */
module DrawPlan {
  import opened Sums
  import opened Sorting
  import opened Apportion

  datatype Event = Event(peerGroup: string, timestamp: real)

  /** One peer group of a workload: its first event's index, its size, its first arrival. */
  datatype Group = Group(trigger: nat, size: nat, time: real)

  datatype Cell = Cell(topology: nat, window: string, rung: string)

  datatype Stratum = Stratum(cell: Cell, bucket: nat, early: bool)

  const EARLY_T: real := 360.0
  const EARLY_SHARE: real := 0.3
  const EARLY_FLOOR: real := 0.25

  /** The proportions of the size buckets, in the order of their names: 101_256, 11_50, 51_100, le10. */
  const SHARES: seq<real> := [600.0, 4600.0, 2000.0, 4800.0]

  /** The buckets in the order in which the plan draws them: le10, 11_50, 51_100, 101_256. */
  const DRAW_ORDER: seq<nat> := [3, 1, 2, 0]

  function BucketOf(size: nat): int {
    if 1 <= size <= 10 then 3
    else if 11 <= size <= 50 then 1
    else if 51 <= size <= 100 then 2
    else if 101 <= size <= 256 then 0
    else -1
  }

  /** The least and the greatest size of each bucket, in the order of SHARES. */
  const LEAST: seq<nat> := [101, 11, 51, 1]
  const GREATEST: seq<nat> := [256, 50, 100, 10]

  /** The buckets are these intervals, which leave out nothing but 0 and what is over 256. */
  lemma BucketsAreIntervals(size: nat, b: nat)
    requires b < 4
    ensures BucketOf(size) == b <==> LEAST[b] <= size <= GREATEST[b]
    ensures BucketOf(size) == -1 <==> size == 0 || size > 256
    ensures -1 <= BucketOf(size) < 4
  {
  }

  ghost predicate Distinct(s: seq<nat>) {
    forall x :: multiset(s)[x] <= 1
  }

  // ----- groups_of -----

  function Size(events: seq<Event>, g: string): nat {
    if events == [] then 0
    else Size(events[..|events| - 1], g) + if events[|events| - 1].peerGroup == g then 1 else 0
  }

  /** The positions of a group's events. */
  function Positions(events: seq<Event>, g: string): set<nat> {
    set i: nat | i < |events| && events[i].peerGroup == g
  }

  lemma {:induction false} SizeIsPositions(events: seq<Event>, g: string)
    ensures Size(events, g) == |Positions(events, g)|
  {
    if events == [] {
      assert Positions(events, g) == {};
    } else {
      var n := |events| - 1;
      var front := events[..n];
      SizeIsPositions(front, g);
      assert Positions(events, g) == Positions(front, g) + if events[n].peerGroup == g then {n} else {};
    }
  }

  ghost predicate IsFirst(events: seq<Event>, i: nat) {
    i < |events| && forall j | 0 <= j < i :: events[j].peerGroup != events[i].peerGroup
  }

  /** Every group once, by its first event, in arrival order. */
  ghost predicate ListsGroups(events: seq<Event>, groups: seq<Group>) {
    && (forall k | 0 <= k < |groups| ::
          var g := groups[k];
          && IsFirst(events, g.trigger)
          && g.size == Size(events, events[g.trigger].peerGroup) && g.time == events[g.trigger].timestamp)
    && (forall j, k | 0 <= j < k < |groups| :: groups[j].trigger < groups[k].trigger)
    && (forall i | 0 <= i < |events| && IsFirst(events, i) :: exists k :: 0 <= k < |groups| && groups[k].trigger == i)
  }

  /** order holds the first event of every group among the first i events, size the groups' sizes there. */
  ghost predicate Tallied(events: seq<Event>, i: nat, order: seq<nat>, size: map<string, nat>)
    requires i <= |events|
  {
    && (forall k | 0 <= k < |order| :: order[k] < i && IsFirst(events, order[k]))
    && (forall j, k | 0 <= j < k < |order| :: order[j] < order[k])
    && (forall j | 0 <= j < i && IsFirst(events, j) :: j in order)
    && (forall j | 0 <= j < i :: events[j].peerGroup in size)
    && (forall g | g in size :: size[g] == Size(events[..i], g) && exists j :: 0 <= j < i && events[j].peerGroup == g)
  }

  lemma {:induction false} SizeUnseen(events: seq<Event>, i: nat, g: string)
    requires i <= |events| && forall j | 0 <= j < i :: events[j].peerGroup != g
    ensures Size(events[..i], g) == 0
  {
    if i > 0 {
      assert events[..i][..i - 1] == events[..i - 1];
      SizeUnseen(events, i - 1, g);
    }
  }

  lemma SizeNext(events: seq<Event>, i: nat, g: string)
    requires i < |events|
    ensures Size(events[..i + 1], g) == Size(events[..i], g) + if events[i].peerGroup == g then 1 else 0
  {
    assert events[..i + 1][..i] == events[..i];
  }

  lemma TalliedNext(events: seq<Event>, i: nat, order: seq<nat>, size: map<string, nat>)
    requires i < |events| && Tallied(events, i, order, size)
    ensures var g := events[i].peerGroup;
      && (g !in size ==> Tallied(events, i + 1, order + [i], size[g := 1]))
      && (g in size ==> Tallied(events, i + 1, order, size[g := size[g] + 1]))
  {
    var g := events[i].peerGroup;
    forall h
      ensures Size(events[..i + 1], h) == Size(events[..i], h) + if g == h then 1 else 0
    {
      SizeNext(events, i, h);
    }
    hide Size;
    if g in size {
      assert !IsFirst(events, i);
    } else {
      SizeUnseen(events, i, g);
      assert IsFirst(events, i);
    }
  }

  method FirstEvents(events: seq<Event>) returns (order: seq<nat>, size: map<string, nat>)
    ensures Tallied(events, |events|, order, size)
  {
    order, size := [], map[];
    for i := 0 to |events|
      invariant Tallied(events, i, order, size)
    {
      TalliedNext(events, i, order, size);
      hide Tallied;
      var g := events[i].peerGroup;
      if g !in size {
        order := order + [i];
        size := size[g := 1];
      } else {
        size := size[g := size[g] + 1];
      }
    }
  }

  method GroupsOf(events: seq<Event>) returns (groups: seq<Group>)
    ensures ListsGroups(events, groups)
  {
    var order, size := FirstEvents(events);
    groups := [];
    for k := 0 to |order|
      invariant |groups| == k
      invariant forall j | 0 <= j < k ::
        groups[j] == Group(order[j], size[events[order[j]].peerGroup], events[order[j]].timestamp)
    {
      assert IsFirst(events, order[k]);
      groups := groups + [Group(order[k], size[events[order[k]].peerGroup], events[order[k]].timestamp)];
    }
    assert events[..|events|] == events;
    forall i | 0 <= i < |events| && IsFirst(events, i)
      ensures exists k :: 0 <= k < |groups| && groups[k].trigger == i
    {
      var k :| 0 <= k < |order| && order[k] == i;
      assert groups[k].trigger == i;
    }
  }

  // ----- the nested split -----

  function Ones(n: nat): (w: seq<real>)
    ensures |w| == n && forall k | 0 <= k < n :: w[k] == 1.0
  {
    seq(n, _ => 1.0)
  }

  lemma OnesAreWeights(n: nat)
    ensures Weights(Ones(n))
  {
    forall k | k in Range(n)
      ensures Weight(Ones(n))(k) == 1.0
    {
    }
    SumConstant(Range(n), Weight(Ones(n)), 1.0);
  }

  lemma SharesAreWeights()
    ensures Weights(SHARES)
  {
    assert Range(4) == [0, 1, 2, 3];
    assert [0, 1, 2, 3][1..] == [1, 2, 3] && [1, 2, 3][1..] == [2, 3] && [2, 3][1..] == [3] && [3][1..] == [];
    var f := Weight(SHARES);
    assert Sum<nat>([3], f) == f(3) + Sum<nat>([], f);
    assert Sum<nat>([2, 3], f) == f(2) + Sum<nat>([3], f);
    assert Sum<nat>([1, 2, 3], f) == f(1) + Sum<nat>([2, 3], f);
    assert Sum<nat>([0, 1, 2, 3], f) == f(0) + Sum<nat>([1, 2, 3], f);
  }

  /** What one of n equal parties gets of a total. */
  function Even(total: nat, n: nat, k: nat): (q: nat)
    requires k < n
  {
    OnesAreWeights(n);
    QuotaNearShare(total, Ones(n), k);
    Quota(total, Ones(n))(k)
  }

  function EvenTotal(total: nat, n: nat, m: nat): nat
    requires m <= n
  {
    if m == 0 then 0 else EvenTotal(total, n, m - 1) + Even(total, n, m - 1)
  }

  lemma {:induction false} EvenTotalIsSum(total: nat, n: nat, m: nat)
    requires m <= n
    ensures EvenTotal(total, n, m) as real == Sum(Range(m), QuotaReal(total, Ones(n)))
  {
    if m > 0 {
      hide Quota;
      assert Range(m) == Range(m - 1) + [m - 1];
      EvenTotalIsSum(total, n, m - 1);
      SumSnoc<nat>(Range(m - 1), m - 1, QuotaReal(total, Ones(n)));
    }
  }

  /** Two parts of an even split differ by at most one, and the earlier one is not the smaller. */
  lemma EvenPartsDiffer(total: nat, n: nat, j: nat, k: nat)
    requires j < k < n
    ensures Even(total, n, k) <= Even(total, n, j) <= Even(total, n, k) + 1
  {
    OnesAreWeights(n);
    QuotaNearShare(total, Ones(n), j);
    QuotaNearShare(total, Ones(n), k);
    QuotaMonotone(total, Ones(n), j, k);
    assert Share(total, Ones(n))(j) == Share(total, Ones(n))(k);
  }

  /** An even split hands out everything. */
  lemma EvenSplit(total: nat, n: nat)
    requires n > 0
    ensures EvenTotal(total, n, n) == total
  {
    OnesAreWeights(n);
    EvenTotalIsSum(total, n, n);
    QuotasSum(total, Ones(n));
  }

  /** How many of the first i cells run at this rung. */
  function RankAt(cells: seq<Cell>, rung: string, i: nat): nat
    requires i <= |cells|
  {
    if i == 0 then 0 else RankAt(cells, rung, i - 1) + if cells[i - 1].rung == rung then 1 else 0
  }

  lemma {:induction false} RankGrows(cells: seq<Cell>, rung: string, i: nat, n: nat)
    requires i <= n <= |cells|
    ensures RankAt(cells, rung, i) <= RankAt(cells, rung, n)
    ensures i < n && cells[i].rung == rung ==> RankAt(cells, rung, i) < RankAt(cells, rung, n)
    decreases n
  {
    if i < n {
      RankGrows(cells, rung, i, n - 1);
    }
  }

  /** The rungs of the cells, each once. */
  ghost predicate ListsRungs(rungs: seq<string>, cells: seq<Cell>) {
    && (forall j, k | 0 <= j < k < |rungs| :: rungs[j] != rungs[k])
    && (forall r :: r in rungs <==> exists i :: 0 <= i < |cells| && cells[i].rung == r)
  }

  /** The bucket total q, split over the rungs, then over the cells of a rung: the part of cell i. */
  function CellQuota(q: nat, rungs: seq<string>, cells: seq<Cell>, i: nat): nat
    requires i < |cells| && cells[i].rung in rungs
  {
    var r := cells[i].rung;
    RankGrows(cells, r, i, |cells|);
    Even(Even(q, |rungs|, Position(rungs, r)), RankAt(cells, r, |cells|), RankAt(cells, r, i))
  }

  ghost predicate Split(q: nat, rungs: seq<string>, cells: seq<Cell>, per: seq<nat>) {
    && |per| == |cells| && ListsRungs(rungs, cells)
    && forall i | 0 <= i < |cells| :: cells[i].rung in rungs && per[i] == CellQuota(q, rungs, cells, i)
  }

  // ----- the nested split hands out everything -----

  function RungTotal(per: seq<nat>, cells: seq<Cell>, rung: string, n: nat): nat
    requires n <= |cells| == |per|
  {
    if n == 0 then 0 else RungTotal(per, cells, rung, n - 1) + if cells[n - 1].rung == rung then per[n - 1] else 0
  }

  /** The first n cells of a rung have received the first parts of the rung's split. */
  lemma {:induction false} RungTotalIsEven(q: nat, rungs: seq<string>, cells: seq<Cell>, per: seq<nat>,
                                           rung: string, n: nat)
    requires Split(q, rungs, cells, per) && rung in rungs && n <= |cells|
    ensures RankAt(cells, rung, n) <= RankAt(cells, rung, |cells|)
    ensures RungTotal(per, cells, rung, n)
         == EvenTotal(Even(q, |rungs|, Position(rungs, rung)), RankAt(cells, rung, |cells|), RankAt(cells, rung, n))
  {
    hide Split, CellQuota, Even, Position;
    RankGrows(cells, rung, n, |cells|);
    SplitSize(q, rungs, cells, per);
    if n > 0 {
      hide EvenTotal;
      RungTotalIsEven(q, rungs, cells, per, rung, n - 1);
      if cells[n - 1].rung == rung {
        PartOfCell(q, rungs, cells, per, n - 1);
        var part := Even(q, |rungs|, Position(rungs, rung));
        EvenTotalStep(part, RankAt(cells, rung, |cells|), RankAt(cells, rung, n - 1));
      }
    }
  }

  lemma SplitSize(q: nat, rungs: seq<string>, cells: seq<Cell>, per: seq<nat>)
    requires Split(q, rungs, cells, per)
    ensures |per| == |cells|
    ensures forall i | 0 <= i < |cells| :: cells[i].rung in rungs
  {
  }

  lemma EvenTotalStep(total: nat, n: nat, m: nat)
    requires m < n
    ensures EvenTotal(total, n, m + 1) == EvenTotal(total, n, m) + Even(total, n, m)
  {
  }

  lemma PartOfCell(q: nat, rungs: seq<string>, cells: seq<Cell>, per: seq<nat>, i: nat)
    requires Split(q, rungs, cells, per) && i < |cells|
    ensures var r := cells[i].rung;
      && r in rungs && RankAt(cells, r, i) < RankAt(cells, r, |cells|)
      && per[i] == Even(Even(q, |rungs|, Position(rungs, r)), RankAt(cells, r, |cells|), RankAt(cells, r, i))
  {
    hide Even, Position;
    RankGrows(cells, cells[i].rung, i, |cells|);
    assert per[i] == CellQuota(q, rungs, cells, i);
  }

  function RungPart(per: seq<nat>, cells: seq<Cell>, rungs: seq<string>, n: nat): nat -> real
    requires n <= |cells| == |per|
  {
    (p: nat) => if p < |rungs| then RungTotal(per, cells, rungs[p], n) as real else 0.0
  }

  function At(rungs: seq<string>, rung: string, x: nat): nat -> real {
    (p: nat) => if p < |rungs| && rungs[p] == rung then x as real else 0.0
  }

  lemma {:induction false} OneRung(rungs: seq<string>, rung: string, x: nat, n: nat)
    requires n <= |rungs| && forall j, k | 0 <= j < k < |rungs| :: rungs[j] != rungs[k]
    ensures Sum(Range(n), At(rungs, rung, x)) == if rung in rungs[..n] then x as real else 0.0
  {
    if n > 0 {
      assert Range(n) == Range(n - 1) + [n - 1];
      assert rungs[..n] == rungs[..n - 1] + [rungs[n - 1]];
      OneRung(rungs, rung, x, n - 1);
      SumSnoc<nat>(Range(n - 1), n - 1, At(rungs, rung, x));
    }
  }

  lemma {:induction false} TotalByRung(per: seq<nat>, cells: seq<Cell>, rungs: seq<string>, n: nat)
    requires n <= |cells| == |per| && ListsRungs(rungs, cells)
    ensures Total(per[..n]) as real == Sum(Range(|rungs|), RungPart(per, cells, rungs, n))
  {
    var all := Range(|rungs|);
    if n == 0 {
      SumConstant(all, RungPart(per, cells, rungs, 0), 0.0);
    } else {
      var rung := cells[n - 1].rung;
      TotalByRung(per, cells, rungs, n - 1);
      assert per[..n][..n - 1] == per[..n - 1];
      OneRung(rungs, rung, per[n - 1], |rungs|);
      assert rungs[..|rungs|] == rungs;
      SumPlus(all, RungPart(per, cells, rungs, n), RungPart(per, cells, rungs, n - 1), At(rungs, rung, per[n - 1]));
    }
  }

  lemma RungHasCells(rungs: seq<string>, cells: seq<Cell>, rung: string)
    requires ListsRungs(rungs, cells) && rung in rungs
    ensures RankAt(cells, rung, |cells|) > 0
  {
    var i :| 0 <= i < |cells| && cells[i].rung == rung;
    RankGrows(cells, rung, i, |cells|);
  }

  /** The cells of a bucket together have the bucket's total. */
  lemma SplitConserves(q: nat, rungs: seq<string>, cells: seq<Cell>, per: seq<nat>)
    requires Split(q, rungs, cells, per) && cells != []
    ensures Total(per) == q
  {
    var n := |cells|;
    assert cells[0].rung in rungs;
    OnesAreWeights(|rungs|);
    forall p | p in Range(|rungs|)
      ensures RungPart(per, cells, rungs, n)(p) == QuotaReal(q, Ones(|rungs|))(p)
    {
      RungTotalIsPart(q, rungs, cells, per, p);
    }
    TotalByRung(per, cells, rungs, n);
    assert per[..n] == per;
    SumCongruent(Range(|rungs|), RungPart(per, cells, rungs, n), QuotaReal(q, Ones(|rungs|)));
    QuotasSum(q, Ones(|rungs|));
  }

  lemma PositionUnique(rungs: seq<string>, p: nat)
    requires p < |rungs| && forall j, k | 0 <= j < k < |rungs| :: rungs[j] != rungs[k]
    ensures Position(rungs, rungs[p]) == p
  {
  }

  lemma RungTotalIsPart(q: nat, rungs: seq<string>, cells: seq<Cell>, per: seq<nat>, p: nat)
    requires Split(q, rungs, cells, per) && p < |rungs|
    ensures RungTotal(per, cells, rungs[p], |cells|) as real == QuotaReal(q, Ones(|rungs|))(p)
  {
    var rung := rungs[p];
    RungTotalIsEven(q, rungs, cells, per, rung, |cells|);
    RungHasCells(rungs, cells, rung);
    PositionUnique(rungs, p);
    EvenSplit(Even(q, |rungs|, p), RankAt(cells, rung, |cells|));
  }

  // ----- the loops of the split -----

  predicate Reached(rungs: seq<string>, rung: string, p: nat, before: bool)
    requires rung in rungs
  {
    Position(rungs, rung) < p || (Position(rungs, rung) == p && before)
  }

  /** The cells of the rungs handled so far have their part; of rung p, the first i cells. */
  ghost predicate Filled(q: nat, rungs: seq<string>, cells: seq<Cell>, per: seq<nat>, p: nat, i: nat)
    requires ListsRungs(rungs, cells) && |per| == |cells|
  {
    forall k | 0 <= k < |cells| ::
      && cells[k].rung in rungs
      && (Reached(rungs, cells[k].rung, p, k < i) ==> per[k] == CellQuota(q, rungs, cells, k))
  }

  lemma FilledNextRung(q: nat, rungs: seq<string>, cells: seq<Cell>, per: seq<nat>, p: nat)
    requires ListsRungs(rungs, cells) && |per| == |cells|
    ensures Filled(q, rungs, cells, per, p, |cells|) ==> Filled(q, rungs, cells, per, p + 1, 0)
    ensures Filled(q, rungs, cells, per, |rungs|, 0) ==> Split(q, rungs, cells, per)
  {
    hide CellQuota;
  }

  lemma FilledNone(q: nat, rungs: seq<string>, cells: seq<Cell>, per: seq<nat>)
    requires ListsRungs(rungs, cells) && |per| == |cells|
    ensures Filled(q, rungs, cells, per, 0, 0)
  {
  }

  lemma FilledSkip(q: nat, rungs: seq<string>, cells: seq<Cell>, per: seq<nat>, p: nat, i: nat)
    requires ListsRungs(rungs, cells) && |per| == |cells| && p < |rungs| && i < |cells|
    requires Filled(q, rungs, cells, per, p, i) && cells[i].rung != rungs[p]
    ensures Filled(q, rungs, cells, per, p, i + 1)
  {
    hide CellQuota;
    forall k | 0 <= k < |cells|
      ensures cells[k].rung in rungs
      ensures Reached(rungs, cells[k].rung, p, k < i + 1) ==> Reached(rungs, cells[k].rung, p, k < i)
    {
    }
  }

  lemma FilledTake(q: nat, rungs: seq<string>, cells: seq<Cell>, per: seq<nat>, p: nat, i: nat, x: nat)
    requires ListsRungs(rungs, cells) && |per| == |cells| && p < |rungs| && i < |cells|
    requires Filled(q, rungs, cells, per, p, i) && cells[i].rung == rungs[p]
    requires RankAt(cells, rungs[p], i) < RankAt(cells, rungs[p], |cells|)
    requires x == Even(Even(q, |rungs|, p), RankAt(cells, rungs[p], |cells|), RankAt(cells, rungs[p], i))
    ensures Filled(q, rungs, cells, per[i := x], p, i + 1)
  {
    CellQuotaAt(q, rungs, cells, p, i);
    hide CellQuota, Even, RankAt, Position;
    forall k | 0 <= k < |cells|
      ensures cells[k].rung in rungs
      ensures Reached(rungs, cells[k].rung, p, k < i + 1) ==> per[i := x][k] == CellQuota(q, rungs, cells, k)
    {
    }
  }

  lemma CellQuotaAt(q: nat, rungs: seq<string>, cells: seq<Cell>, p: nat, i: nat)
    requires ListsRungs(rungs, cells) && p < |rungs| && i < |cells| && cells[i].rung == rungs[p]
    ensures RankAt(cells, rungs[p], i) < RankAt(cells, rungs[p], |cells|)
    ensures CellQuota(q, rungs, cells, i)
         == Even(Even(q, |rungs|, p), RankAt(cells, rungs[p], |cells|), RankAt(cells, rungs[p], i))
  {
    hide Even;
    PositionUnique(rungs, p);
    RankGrows(cells, rungs[p], i, |cells|);
  }

  method CountCells(cells: seq<Cell>, rung: string) returns (n: nat)
    ensures n == RankAt(cells, rung, |cells|)
  {
    n := 0;
    for i := 0 to |cells|
      invariant n == RankAt(cells, rung, i)
    {
      if cells[i].rung == rung {
        n := n + 1;
      }
    }
  }

  method SplitEvenly(total: nat, n: nat) returns (parts: seq<nat>)
    ensures |parts| == n && forall k | 0 <= k < n :: parts[k] == Even(total, n, k)
  {
    OnesAreWeights(n);
    var r := LargestRemainder(total, Ones(n));
    assert forall k | 0 <= k < n :: r.value[k] == Even(total, n, k);
    return r.value;
  }

  method SplitRung(q: nat, rungs: seq<string>, cells: seq<Cell>, p: nat, part: nat, per: array<nat>)
    requires ListsRungs(rungs, cells) && per.Length == |cells| && p < |rungs| && part == Even(q, |rungs|, p)
    requires Filled(q, rungs, cells, per[..], p, 0)
    modifies per
    ensures Filled(q, rungs, cells, per[..], p + 1, 0)
  {
    hide Even, Filled, ListsRungs;
    var n := CountCells(cells, rungs[p]);
    var quotas := SplitEvenly(part, n);
    var pos := 0;
    for i := 0 to |cells|
      invariant pos == RankAt(cells, rungs[p], i)
      invariant Filled(q, rungs, cells, per[..], p, i)
    {
      if cells[i].rung == rungs[p] {
        RankGrows(cells, rungs[p], i, |cells|);
        FilledTake(q, rungs, cells, per[..], p, i, Even(part, n, pos));
        ghost var before := per[..];
        per[i] := quotas[pos];
        assert per[..] == before[i := Even(part, n, pos)];
        pos := pos + 1;
      } else {
        FilledSkip(q, rungs, cells, per[..], p, i);
      }
    }
    FilledNextRung(q, rungs, cells, per[..], p);
  }

  method SplitOverCells(q: nat, rungs: seq<string>, cells: seq<Cell>) returns (parts: seq<nat>)
    requires ListsRungs(rungs, cells)
    ensures Split(q, rungs, cells, parts)
  {
    var per := new nat[|cells|](_ => 0);
    var byRung := SplitEvenly(q, |rungs|);
    FilledNone(q, rungs, cells, per[..]);
    for p := 0 to |rungs|
      invariant Filled(q, rungs, cells, per[..], p, 0)
    {
      hide Filled, Split;
      SplitRung(q, rungs, cells, p, byRung[p], per);
    }
    FilledNextRung(q, rungs, cells, per[..], |rungs|);
    parts := per[..];
  }
}
