/** Drawing the triggers of every cell from its strata, with the shortfall counted instead of topped up. */
module StratifiedDraw {
  import opened DrawPlan
  import opened Reals
  import opened Sorting
  import opened Sums

  /** random.Random(key).sample(pool, k): some k positions of the pool, in some order. */
  type Sampler = (seq<nat>, nat, Stratum) -> seq<nat>

  ghost predicate Samples(sampler: Sampler) {
    forall pool: seq<nat>, k: nat, s: Stratum | k <= |pool| ::
      |sampler(pool, k, s)| == k && multiset(sampler(pool, k, s)) <= multiset(pool)
  }

  // ----- strata -----

  predicate InStratum(g: Group, bucket: nat, early: bool) {
    BucketOf(g.size) == bucket && (g.time < EARLY_T) == early
  }

  function Triggers(groups: seq<Group>, bucket: nat, early: bool): seq<nat> {
    if groups == [] then []
    else Triggers(groups[..|groups| - 1], bucket, early)
         + if InStratum(groups[|groups| - 1], bucket, early) then [groups[|groups| - 1].trigger] else []
  }

  function Ascending(): (nat, nat) -> bool {
    (x: nat, y: nat) => x <= y
  }

  function PoolOf(groups: seq<Group>, bucket: nat, early: bool): (pool: seq<nat>)
    ensures multiset(pool) == multiset(Triggers(groups, bucket, early))
  {
    Sort(Triggers(groups, bucket, early), Ascending())
  }

  /** No two groups of a workload have the same trigger. */
  ghost predicate DistinctTriggers(groups: seq<Group>) {
    forall j, k | 0 <= j < k < |groups| :: groups[j].trigger != groups[k].trigger
  }

  lemma ListedTriggersDistinct(events: seq<Event>, groups: seq<Group>)
    requires ListsGroups(events, groups)
    ensures DistinctTriggers(groups)
  {
  }

  ghost predicate Holds(groups: seq<Group>, bucket: nat, early: bool, x: nat) {
    exists k :: 0 <= k < |groups| && groups[k].trigger == x && InStratum(groups[k], bucket, early)
  }

  lemma HoldsSnoc(front: seq<Group>, last: Group, bucket: nat, early: bool, x: nat)
    ensures Holds(front + [last], bucket, early, x)
      <==> Holds(front, bucket, early, x) || (last.trigger == x && InStratum(last, bucket, early))
  {
    var groups := front + [last];
    assert groups[|front|] == last && forall k | 0 <= k < |front| :: groups[k] == front[k];
  }

  lemma {:induction false} TriggersMember(groups: seq<Group>, bucket: nat, early: bool, x: nat)
    ensures x in Triggers(groups, bucket, early) <==> Holds(groups, bucket, early, x)
  {
    if groups != [] {
      var front, last := groups[..|groups| - 1], groups[|groups| - 1];
      assert groups == front + [last];
      TriggersMember(front, bucket, early, x);
      HoldsSnoc(front, last, bucket, early, x);
      hide Holds, InStratum;
    }
  }

  lemma {:induction false} TriggersOnce(groups: seq<Group>, bucket: nat, early: bool, x: nat)
    requires DistinctTriggers(groups)
    ensures multiset(Triggers(groups, bucket, early))[x] <= 1
  {
    if groups != [] {
      var front, last := groups[..|groups| - 1], groups[|groups| - 1];
      TriggersOnce(front, bucket, early, x);
      TriggersMember(front, bucket, early, x);
      assert last.trigger == x ==> !Holds(front, bucket, early, x);
      hide Holds, InStratum, DistinctTriggers;
      var earlier := Triggers(front, bucket, early);
      assert x in earlier <==> x in multiset(earlier);
    }
  }

  // ----- how much to draw -----

  /** round(x): halves go to the even neighbour. */
  function Round(x: real): int {
    var f := x.Floor;
    var d := x - f as real;
    if d < 0.5 || (d == 0.5 && f % 2 == 0) then f else f + 1
  }

  /** The nearest whole number, the even one of two. */
  lemma RoundIsNearest(x: real)
    ensures -0.5 <= Round(x) as real - x <= 0.5
    ensures Round(x) as real - x == 0.5 || Round(x) as real - x == -0.5 ==> Round(x) % 2 == 0
  {
  }

  function Want(quota: nat, early: bool): nat {
    var n := Round(EARLY_SHARE * quota as real);
    assert 0 <= n <= quota;
    if early then n else quota - n
  }

  /** What a cell can give of one stratum. */
  function Given(groups: seq<Group>, quota: nat, bucket: nat, early: bool): nat {
    Least(Want(quota, early), |PoolOf(groups, bucket, early)|)
  }

  /** What a cell gives of its first n buckets in drawing order. */
  function Drawn(groups: seq<Group>, quotas: seq<nat>, n: nat): nat
    requires |quotas| == 4 && n <= 4
  {
    if n == 0 then 0
    else
      var b := DRAW_ORDER[n - 1];
      Drawn(groups, quotas, n - 1) + Given(groups, quotas[b], b, true) + Given(groups, quotas[b], b, false)
  }

  function QuotaSum(quotas: seq<nat>, n: nat): nat
    requires |quotas| == 4 && n <= 4
  {
    if n == 0 then 0 else QuotaSum(quotas, n - 1) + quotas[DRAW_ORDER[n - 1]]
  }

  // ----- the census -----

  /** What one cell was asked for in one stratum, what it holds and what it gave. */
  datatype Entry = Entry(cell: Cell, bucket: nat, early: bool, want: nat, pool: nat, drawn: nat)

  function StratumEntry(cell: Cell, groups: seq<Group>, quota: nat, bucket: nat, early: bool): Entry {
    Entry(cell, bucket, early, Want(quota, early), |PoolOf(groups, bucket, early)|, Given(groups, quota, bucket, early))
  }

  /** The entries of a cell for its first n buckets in drawing order. */
  function CellCensus(cell: Cell, groups: seq<Group>, quotas: seq<nat>, n: nat): seq<Entry>
    requires |quotas| == 4 && n <= 4
  {
    if n == 0 then []
    else
      var b := DRAW_ORDER[n - 1];
      CellCensus(cell, groups, quotas, n - 1)
      + [StratumEntry(cell, groups, quotas[b], b, true), StratumEntry(cell, groups, quotas[b], b, false)]
  }

  /** All that was drawn, or only the early part. */
  function DrawnIn(census: seq<Entry>, onlyEarly: bool): nat {
    if census == [] then 0
    else
      var last := census[|census| - 1];
      DrawnIn(census[..|census| - 1], onlyEarly) + if last.early || !onlyEarly then last.drawn else 0
  }

  function MissingIn(census: seq<Entry>): int {
    if census == [] then 0
    else MissingIn(census[..|census| - 1]) + census[|census| - 1].want - census[|census| - 1].drawn
  }

  lemma {:induction false} CensusAppend(a: seq<Entry>, b: seq<Entry>)
    ensures forall early :: DrawnIn(a + b, early) == DrawnIn(a, early) + DrawnIn(b, early)
    ensures MissingIn(a + b) == MissingIn(a) + MissingIn(b)
  {
    if b == [] {
      assert a + b == a;
    } else {
      CensusAppend(a, b[..|b| - 1]);
      assert (a + b)[..|a + b| - 1] == a + b[..|b| - 1];
    }
  }

  lemma TwoEntries(x: Entry, y: Entry)
    requires x.early && !y.early
    ensures DrawnIn([x, y], true) == x.drawn && DrawnIn([x, y], false) == x.drawn + y.drawn
    ensures MissingIn([x, y]) == (x.want - x.drawn) + (y.want - y.drawn)
  {
    assert [x, y][..1] == [x] && [x][..0] == [];
    assert DrawnIn([x], true) == x.drawn && DrawnIn([x], false) == x.drawn && MissingIn([x]) == x.want - x.drawn;
  }

  /** What one more bucket adds to a cell's census. */
  lemma BucketCensus(cell: Cell, groups: seq<Group>, quotas: seq<nat>, n: nat)
    requires |quotas| == 4 && n < 4
    ensures var b := DRAW_ORDER[n];
      var was, now := CellCensus(cell, groups, quotas, n), CellCensus(cell, groups, quotas, n + 1);
      var e, l := Given(groups, quotas[b], b, true), Given(groups, quotas[b], b, false);
      && DrawnIn(now, true) == DrawnIn(was, true) + e && DrawnIn(now, false) == DrawnIn(was, false) + e + l
      && MissingIn(now) == MissingIn(was) + quotas[b] - e - l
      && e <= Want(quotas[b], true) && e + l <= quotas[b]
  {
    var b := DRAW_ORDER[n];
    var x := StratumEntry(cell, groups, quotas[b], b, true);
    var y := StratumEntry(cell, groups, quotas[b], b, false);
    CensusAppend(CellCensus(cell, groups, quotas, n), [x, y]);
    TwoEntries(x, y);
    WantsAddUp(quotas[b]);
  }

  /** The census of a cell adds up to what it gave and what it lacks; if it lacks nothing, the early part is within a
      half of its share for every bucket. */
  lemma {:induction false} CellCensusSums(cell: Cell, groups: seq<Group>, quotas: seq<nat>, n: nat)
    requires |quotas| == 4 && n <= 4
    ensures var census := CellCensus(cell, groups, quotas, n);
      && DrawnIn(census, false) == Drawn(groups, quotas, n)
      && DrawnIn(census, false) + MissingIn(census) == QuotaSum(quotas, n)
      && MissingIn(census) >= 0
      && DrawnIn(census, true) as real <= EARLY_SHARE * QuotaSum(quotas, n) as real + 0.5 * n as real
      && (MissingIn(census) == 0 ==>
            DrawnIn(census, true) as real >= EARLY_SHARE * DrawnIn(census, false) as real - 0.5 * n as real)
  {
    if n > 0 {
      hide CellCensus, DrawnIn, MissingIn, Given, Want;
      CellCensusSums(cell, groups, quotas, n - 1);
      BucketCensus(cell, groups, quotas, n - 1);
      EarlyWant(quotas[DRAW_ORDER[n - 1]]);
      WantsAddUp(quotas[DRAW_ORDER[n - 1]]);
      EarlyAll(groups, quotas[DRAW_ORDER[n - 1]], DRAW_ORDER[n - 1]);
    }
  }

  /** The early part is the whole number nearest to 30 percent of the quota. */
  lemma EarlyWant(quota: nat)
    ensures EARLY_SHARE * quota as real - 0.5 <= Want(quota, true) as real <= EARLY_SHARE * quota as real + 0.5
    ensures Want(quota, true) + Want(quota, false) == quota
  {
    RoundIsNearest(EARLY_SHARE * quota as real);
  }

  /** A stratum that gives all of a quota gives all of its early part. */
  lemma EarlyAll(groups: seq<Group>, quota: nat, bucket: nat)
    ensures Given(groups, quota, bucket, true) + Given(groups, quota, bucket, false) == quota
      ==> Given(groups, quota, bucket, true) == Want(quota, true)
  {
    WantsAddUp(quota);
  }

  // ----- one cell -----

  /** The strata drawn so far: n whole buckets in drawing order, and the early part of the next if half. */
  predicate Handled(n: nat, half: bool, g: Group) {
    exists j :: 0 <= j < 4 && BucketOf(g.size) == DRAW_ORDER[j] && (j < n || (half && j == n && g.time < EARLY_T))
  }

  ghost predicate FromHandled(groups: seq<Group>, ids: seq<nat>, n: nat, half: bool) {
    forall x | x in ids :: exists k :: 0 <= k < |groups| && groups[k].trigger == x && Handled(n, half, groups[k])
  }

  lemma SampleIsFresh(groups: seq<Group>, ids: seq<nat>, got: seq<nat>, n: nat, half: bool)
    requires DistinctTriggers(groups) && n < 4
    requires Distinct(ids) && FromHandled(groups, ids, n, half)
    requires multiset(got) <= multiset(PoolOf(groups, DRAW_ORDER[n], !half))
    ensures Distinct(ids + got)
    ensures FromHandled(groups, ids + got, if half then n + 1 else n, !half)
  {
    var b := DRAW_ORDER[n];
    forall x
      ensures multiset(ids + got)[x] <= 1
      ensures x in got ==> exists k :: 0 <= k < |groups| && groups[k].trigger == x && InStratum(groups[k], b, !half)
    {
      FreshTrigger(groups, ids, got, n, half, x);
    }
    forall x | x in ids + got
      ensures exists k :: 0 <= k < |groups| && groups[k].trigger == x
                          && Handled(if half then n + 1 else n, !half, groups[k])
    {
      if x in ids {
        var k :| 0 <= k < |groups| && groups[k].trigger == x && Handled(n, half, groups[k]);
        assert Handled(if half then n + 1 else n, !half, groups[k]);
      } else {
        assert x in got;
        var k :| 0 <= k < |groups| && groups[k].trigger == x && InStratum(groups[k], b, !half);
        assert Handled(if half then n + 1 else n, !half, groups[k]);
      }
    }
  }

  lemma StratumIsNew(g: Group, n: nat, half: bool)
    requires n < 4 && InStratum(g, DRAW_ORDER[n], !half)
    ensures !Handled(n, half, g)
  {
    assert DRAW_ORDER[0] == 3 && DRAW_ORDER[1] == 1 && DRAW_ORDER[2] == 2 && DRAW_ORDER[3] == 0;
  }

  lemma FreshTrigger(groups: seq<Group>, ids: seq<nat>, got: seq<nat>, n: nat, half: bool, x: nat)
    requires DistinctTriggers(groups) && n < 4
    requires Distinct(ids) && FromHandled(groups, ids, n, half)
    requires multiset(got) <= multiset(PoolOf(groups, DRAW_ORDER[n], !half))
    ensures multiset(ids + got)[x] <= 1
    ensures x in got ==>
      exists k :: 0 <= k < |groups| && groups[k].trigger == x && InStratum(groups[k], DRAW_ORDER[n], !half)
  {
    var b := DRAW_ORDER[n];
    TriggersOnce(groups, b, !half, x);
    TriggersMember(groups, b, !half, x);
    assert multiset(ids + got)[x] == multiset(ids)[x] + multiset(got)[x];
    if x in got {
      assert x in multiset(got) && x in multiset(Triggers(groups, b, !half));
      assert x in Triggers(groups, b, !half);
      var k :| 0 <= k < |groups| && groups[k].trigger == x && InStratum(groups[k], b, !half);
      StratumIsNew(groups[k], n, half);
      NotAmong(groups, ids, n, half, k);
    }
  }

  lemma NotAmong(groups: seq<Group>, ids: seq<nat>, n: nat, half: bool, k: nat)
    requires DistinctTriggers(groups) && FromHandled(groups, ids, n, half)
    requires k < |groups| && !Handled(n, half, groups[k])
    ensures groups[k].trigger !in ids
  {
    forall j | 0 <= j < |groups| && groups[j].trigger == groups[k].trigger
      ensures j == k
    {
    }
  }

  /** What is drawn comes from the stratum, and is all of it if it is as many. */
  lemma SampleIsOfStratum(groups: seq<Group>, got: seq<nat>, bucket: nat, early: bool)
    requires multiset(got) <= multiset(PoolOf(groups, bucket, early))
    ensures forall x | x in got :: Holds(groups, bucket, early, x)
    ensures |got| == |PoolOf(groups, bucket, early)| ==>
      forall k | 0 <= k < |groups| && InStratum(groups[k], bucket, early) :: groups[k].trigger in got
  {
    var pool, all := PoolOf(groups, bucket, early), Triggers(groups, bucket, early);
    forall x | x in got
      ensures Holds(groups, bucket, early, x)
    {
      assert x in multiset(got) && x in multiset(all) && x in all;
      TriggersMember(groups, bucket, early, x);
    }
    if |got| == |pool| {
      var rest := multiset(pool) - multiset(got);
      assert |rest| == 0;
      forall k | 0 <= k < |groups| && InStratum(groups[k], bucket, early)
        ensures groups[k].trigger in got
      {
        var x := groups[k].trigger;
        TriggersMember(groups, bucket, early, x);
        assert x in all && x in multiset(all) && x in multiset(pool);
        assert rest[x] == 0;
        assert x in multiset(got);
      }
    }
  }

  method DrawStratum(groups: seq<Group>, quota: nat, n: nat, half: bool, sampler: Sampler, cell: Cell, ids: seq<nat>)
      returns (ids': seq<nat>, missing: nat, entry: Entry)
    requires DistinctTriggers(groups) && Samples(sampler) && n < 4
    requires Distinct(ids) && FromHandled(groups, ids, n, half)
    ensures Distinct(ids') && FromHandled(groups, ids', if half then n + 1 else n, !half)
    ensures |ids'| == |ids| + Given(groups, quota, DRAW_ORDER[n], !half)
    ensures missing == Want(quota, !half) - Given(groups, quota, DRAW_ORDER[n], !half)
    ensures ids <= ids' && |ids'| + missing == |ids| + Want(quota, !half)
    ensures forall x | x in ids'[|ids|..] ::
      exists k :: 0 <= k < |groups| && groups[k].trigger == x && BucketOf(groups[k].size) == DRAW_ORDER[n]
                  && (groups[k].time < 360.0 <==> !half)
    ensures missing > 0 ==>
      forall k | 0 <= k < |groups| && BucketOf(groups[k].size) == DRAW_ORDER[n]
                 && (groups[k].time < 360.0 <==> !half) :: groups[k].trigger in ids'
    ensures entry == StratumEntry(cell, groups, quota, DRAW_ORDER[n], !half)
  {
    var bucket := DRAW_ORDER[n];
    var want := Want(quota, !half);
    var pool := PoolOf(groups, bucket, !half);
    var got := sampler(pool, Least(want, |pool|), Stratum(cell, bucket, !half));
    SampleIsFresh(groups, ids, got, n, half);
    SampleIsOfStratum(groups, got, bucket, !half);
    ids' := ids + got;
    missing := want - |got|;
    entry := Entry(cell, bucket, !half, want, |pool|, |got|);
  }

  method DrawCell(cell: Cell, groups: seq<Group>, quotas: seq<nat>, sampler: Sampler)
      returns (ids: seq<nat>, missing: nat, census: seq<Entry>)
    requires |quotas| == 4 && DistinctTriggers(groups) && Samples(sampler)
    ensures Distinct(ids) && FromHandled(groups, ids, 4, false)
    ensures |ids| == Drawn(groups, quotas, 4)
    ensures |ids| + missing == QuotaSum(quotas, 4)
    ensures census == CellCensus(cell, groups, quotas, 4)
  {
    ids, missing, census := [], 0, [];
    for n := 0 to 4
      invariant Distinct(ids) && FromHandled(groups, ids, n, false)
      invariant |ids| == Drawn(groups, quotas, n)
      invariant |ids| + missing == QuotaSum(quotas, n)
      invariant census == CellCensus(cell, groups, quotas, n)
    {
      hide Distinct, FromHandled, Want, Given, StratumEntry;
      var b := DRAW_ORDER[n];
      var early, late: nat;
      var first, second;
      ids, early, first := DrawStratum(groups, quotas[b], n, false, sampler, cell, ids);
      ids, late, second := DrawStratum(groups, quotas[b], n, true, sampler, cell, ids);
      missing := missing + early + late;
      census := census + [first, second];
      WantsAddUp(quotas[b]);
    }
  }

  lemma WantsAddUp(quota: nat)
    ensures Want(quota, true) + Want(quota, false) == quota
  {
  }

  // ----- the whole plan -----

  function BucketTotal(total: nat, b: nat): nat
    requires b < 4
  {
    SharesAreWeights();
    Apportion.QuotaNearShare(total, SHARES, b);
    Apportion.Quota(total, SHARES)(b)
  }

  /** The four quotas of cell i. */
  function QuotasOf(total: nat, rungs: seq<string>, cells: seq<Cell>, i: nat): (q: seq<nat>)
    requires i < |cells| && cells[i].rung in rungs
    ensures |q| == 4
  {
    seq(4, b requires 0 <= b < 4 => CellQuota(BucketTotal(total, b), rungs, cells, i))
  }

  function Lengths(plan: seq<seq<nat>>): nat {
    if plan == [] then 0 else Lengths(plan[..|plan| - 1]) + |plan[|plan| - 1]|
  }

  /** The quotas of the first n cells, over all buckets. */
  function Planned(per: seq<seq<nat>>, n: nat): int
    requires |per| == 4 && forall b | 0 <= b < 4 :: n <= |per[b]|
  {
    Total(per[0][..n]) + Total(per[1][..n]) + Total(per[2][..n]) + Total(per[3][..n])
  }

  lemma PlannedNext(per: seq<seq<nat>>, n: nat, quotas: seq<nat>)
    requires |per| == 4 && |quotas| == 4
    requires forall b | 0 <= b < 4 :: n < |per[b]| && quotas[b] == per[b][n]
    ensures Planned(per, n + 1) == Planned(per, n) + QuotaSum(quotas, 4)
  {
    forall b | 0 <= b < 4
      ensures Total(per[b][..n + 1]) == Total(per[b][..n]) + quotas[b]
    {
      assert per[b][..n + 1][..n] == per[b][..n];
    }
    assert QuotaSum(quotas, 4) == quotas[3] + quotas[1] + quotas[2] + quotas[0] by {
      assert QuotaSum(quotas, 1) == quotas[3];
      assert QuotaSum(quotas, 2) == quotas[3] + quotas[1];
      assert QuotaSum(quotas, 3) == quotas[3] + quotas[1] + quotas[2];
    }
  }

  lemma FourBuckets(total: nat)
    ensures BucketTotal(total, 0) + BucketTotal(total, 1) + BucketTotal(total, 2) + BucketTotal(total, 3) == total
  {
    SharesAreWeights();
    Apportion.QuotasSum(total, SHARES);
    var f := Apportion.QuotaReal(total, SHARES);
    hide Apportion.Quota;
    assert Range(4) == [0, 1, 2, 3];
    assert [0, 1, 2, 3][1..] == [1, 2, 3] && [1, 2, 3][1..] == [2, 3] && [2, 3][1..] == [3] && [3][1..] == [];
    assert Sum<nat>([3], f) == f(3) + Sum<nat>([], f);
    assert Sum<nat>([2, 3], f) == f(2) + Sum<nat>([3], f);
    assert Sum<nat>([1, 2, 3], f) == f(1) + Sum<nat>([2, 3], f);
    assert Sum<nat>([0, 1, 2, 3], f) == f(0) + Sum<nat>([1, 2, 3], f);
  }

  lemma PlannedAll(total: nat, rungs: seq<string>, cells: seq<Cell>, per: seq<seq<nat>>)
    requires |per| == 4 && forall b | 0 <= b < 4 :: Split(BucketTotal(total, b), rungs, cells, per[b])
    ensures forall b | 0 <= b < 4 :: |per[b]| == |cells|
    ensures Planned(per, |cells|) == if cells == [] then 0 else total
  {
    hide BucketTotal, Split;
    forall b | 0 <= b < 4
      ensures |per[b]| == |cells| && per[b][..|cells|] == per[b]
      ensures cells != [] ==> Total(per[b]) == BucketTotal(total, b)
    {
      SplitSize(BucketTotal(total, b), rungs, cells, per[b]);
      if cells != [] {
        SplitConserves(BucketTotal(total, b), rungs, cells, per[b]);
      }
    }
    FourBuckets(total);
  }

  /** The plan of one cell: its ids in ascending order, each drawn once, from groups of at most 256 tasks. */
  ghost predicate CellPlan(groups: seq<Group>, quotas: seq<nat>, ids: seq<nat>)
    requires |quotas| == 4
  {
    && Distinct(ids) && SortedBy(ids, Ascending())
    && |ids| == Drawn(groups, quotas, 4)
    && forall x | x in ids :: exists k :: 0 <= k < |groups| && groups[k].trigger == x && BucketOf(groups[k].size) >= 0
  }

  lemma SortedIds(groups: seq<Group>, quotas: seq<nat>, ids: seq<nat>)
    requires |quotas| == 4 && Distinct(ids) && FromHandled(groups, ids, 4, false) && |ids| == Drawn(groups, quotas, 4)
    ensures CellPlan(groups, quotas, Sort(ids, Ascending()))
    ensures |Sort(ids, Ascending())| == |ids|
  {
    var sorted := Sort(ids, Ascending());
    assert |sorted| == |multiset(sorted)| == |ids|;
    forall x | x in sorted
      ensures exists k :: 0 <= k < |groups| && groups[k].trigger == x && BucketOf(groups[k].size) >= 0
    {
      assert x in multiset(sorted) && x in ids;
      var k :| 0 <= k < |groups| && groups[k].trigger == x && Handled(4, false, groups[k]);
    }
  }

  method BucketTotals(total: nat) returns (parts: seq<int>)
    ensures |parts| == 4 && forall b | 0 <= b < 4 :: parts[b] == BucketTotal(total, b)
  {
    SharesAreWeights();
    var split := Apportion.LargestRemainder(total, SHARES);
    BucketsOf(total);
    return split.value;
  }

  method SplitBuckets(total: nat, rungs: seq<string>, cells: seq<Cell>) returns (per: seq<seq<nat>>)
    requires ListsRungs(rungs, cells)
    ensures |per| == 4 && forall b | 0 <= b < 4 :: Split(BucketTotal(total, b), rungs, cells, per[b])
  {
    hide Split, BucketTotal;
    var cellQ := BucketTotals(total);
    per := [];
    for b := 0 to 4
      invariant |per| == b
      invariant forall c | 0 <= c < b :: Split(BucketTotal(total, c), rungs, cells, per[c])
    {
      assert cellQ[b] == BucketTotal(total, b);
      var parts := SplitOverCells(cellQ[b], rungs, cells);
      per := per + [parts];
    }
  }

  lemma BucketsOf(total: nat)
    ensures |Apportion.Quotas(total, SHARES)| == 4
    ensures forall b | 0 <= b < 4 :: Apportion.Quotas(total, SHARES)[b] == BucketTotal(total, b)
  {
    hide Apportion.Quota;
  }

  method DrawSorted(cell: Cell, groups: seq<Group>, quotas: seq<nat>, sampler: Sampler)
      returns (sorted: seq<nat>, missing: nat, census: seq<Entry>)
    requires |quotas| == 4 && DistinctTriggers(groups) && Samples(sampler)
    ensures CellPlan(groups, quotas, sorted) && |sorted| + missing == QuotaSum(quotas, 4)
    ensures census == CellCensus(cell, groups, quotas, 4)
  {
    var ids;
    ids, missing, census := DrawCell(cell, groups, quotas, sampler);
    SortedIds(groups, quotas, ids);
    sorted := Sort(ids, Ascending());
  }

  /** The entries of the first n cells. */
  function Census(total: nat, rungs: seq<string>, cells: seq<Cell>, groups: seq<seq<Group>>, n: nat): seq<Entry>
    requires n <= |cells| == |groups| && forall i | 0 <= i < |cells| :: cells[i].rung in rungs
  {
    if n == 0 then []
    else Census(total, rungs, cells, groups, n - 1)
         + CellCensus(cells[n - 1], groups[n - 1], QuotasOf(total, rungs, cells, n - 1), 4)
  }

  /** Drawn plus shortfall is the total whenever there is a cell at all, and no trigger is drawn twice in a cell. */
  method DrawTriggers(total: nat, rungs: seq<string>, cells: seq<Cell>, groups: seq<seq<Group>>, sampler: Sampler)
      returns (plan: seq<seq<nat>>, census: seq<Entry>, totalDrawn: nat, shortfall: nat)
    requires ListsRungs(rungs, cells) && |groups| == |cells| && Samples(sampler)
    requires forall i | 0 <= i < |groups| :: DistinctTriggers(groups[i])
    ensures |plan| == |cells|
    ensures forall i | 0 <= i < |cells| ::
      cells[i].rung in rungs && CellPlan(groups[i], QuotasOf(total, rungs, cells, i), plan[i])
    ensures totalDrawn == Lengths(plan)
    ensures totalDrawn + shortfall == if cells == [] then 0 else total
    ensures census == Census(total, rungs, cells, groups, |cells|)
  {
    hide CellPlan, Split, ListsRungs, DistinctTriggers, Samples, Total, QuotaSum, Drawn, CellCensus;
    var per := SplitBuckets(total, rungs, cells);
    plan, census, totalDrawn, shortfall := [], [], 0, 0;
    CellsHaveRungs(rungs, cells);
    PerSizes(total, rungs, cells, per);
    for i := 0 to |cells|
      invariant |plan| == i
      invariant forall k | 0 <= k < i :: CellPlan(groups[k], QuotasOf(total, rungs, cells, k), plan[k])
      invariant totalDrawn == Lengths(plan)
      invariant totalDrawn + shortfall == Planned(per, i)
      invariant census == Census(total, rungs, cells, groups, i)
    {
      hide Planned, QuotasOf, Lengths;
      var quotas := [per[0][i], per[1][i], per[2][i], per[3][i]];
      PerIsQuotas(total, rungs, cells, per, i);
      PlannedNext(per, i, quotas);
      var ids, missing, rows := DrawSorted(cells[i], groups[i], quotas, sampler);
      LengthsNext(plan, ids);
      plan, census := plan + [ids], census + rows;
      totalDrawn, shortfall := totalDrawn + |ids|, shortfall + missing;
    }
    PlannedAll(total, rungs, cells, per);
  }

  // ----- the figures reported with the plan -----

  /** The census adds up to the ids drawn; without a shortfall at least 30 percent of them, less two for each cell, are
      early. */
  lemma {:induction false} CensusSums(total: nat, rungs: seq<string>, cells: seq<Cell>, groups: seq<seq<Group>>,
                                      plan: seq<seq<nat>>, n: nat)
    requires n == |plan| <= |cells| == |groups| && forall i | 0 <= i < |cells| :: cells[i].rung in rungs
    requires forall i | 0 <= i < n :: CellPlan(groups[i], QuotasOf(total, rungs, cells, i), plan[i])
    ensures var census := Census(total, rungs, cells, groups, n);
      && DrawnIn(census, false) == Lengths(plan) && MissingIn(census) >= 0
      && (MissingIn(census) == 0 ==>
            DrawnIn(census, true) as real >= EARLY_SHARE * Lengths(plan) as real - 2.0 * n as real)
  {
    if n > 0 {
      hide CellCensus, DrawnIn, MissingIn, QuotasOf, Drawn;
      var quotas := QuotasOf(total, rungs, cells, n - 1);
      var front := plan[..n - 1];
      CensusSums(total, rungs, cells, groups, front, n - 1);
      CellCensusSums(cells[n - 1], groups[n - 1], quotas, 4);
      CensusAppend(Census(total, rungs, cells, groups, n - 1), CellCensus(cells[n - 1], groups[n - 1], quotas, 4));
      assert CellPlan(groups[n - 1], quotas, plan[n - 1]);
    }
  }

  function EarlyShare(census: seq<Entry>): real {
    if DrawnIn(census, false) == 0 then 0.0
    else DrawnIn(census, true) as real / DrawnIn(census, false) as real
  }

  lemma {:induction false} EarlyIsPart(census: seq<Entry>)
    ensures DrawnIn(census, true) <= DrawnIn(census, false)
  {
    if census != [] {
      EarlyIsPart(census[..|census| - 1]);
    }
  }

  /** The early share lies between 0 and 1. A draw that lacks nothing meets the floor of a quarter as soon as it has
      forty ids for each cell. */
  lemma EarlyFloorMet(total: nat, rungs: seq<string>, cells: seq<Cell>, groups: seq<seq<Group>>, plan: seq<seq<nat>>)
    requires |plan| == |cells| == |groups| && forall i | 0 <= i < |cells| :: cells[i].rung in rungs
    requires forall i | 0 <= i < |cells| :: CellPlan(groups[i], QuotasOf(total, rungs, cells, i), plan[i])
    ensures var census := Census(total, rungs, cells, groups, |cells|);
      && 0.0 <= EarlyShare(census) <= 1.0
      && (MissingIn(census) == 0 && 0 < 40 * |cells| <= Lengths(plan) ==> EarlyShare(census) >= EARLY_FLOOR)
  {
    hide CellPlan, Census, QuotasOf;
    var census := Census(total, rungs, cells, groups, |cells|);
    CensusSums(total, rungs, cells, groups, plan, |cells|);
    EarlyIsPart(census);
    var early, drawn := DrawnIn(census, true), DrawnIn(census, false);
    if drawn > 0 {
      QuotientBounds(early as real, drawn as real, EARLY_FLOOR);
    }
  }

  lemma QuotientBounds(x: real, y: real, c: real)
    requires 0.0 <= x <= y && y > 0.0
    ensures 0.0 <= x / y <= 1.0
    ensures c * y <= x ==> c <= x / y
  {
    var q := x / y;
    NonNegativeQuotient(x, y);
    TimesQuotient(x, y);
    assert q * y == x;
    if q > 1.0 {
      PositiveTimes(q - 1.0, y);
    }
    if c > q {
      PositiveTimes(c - q, y);
    }
  }

  function Sizes(plan: seq<seq<nat>>): seq<nat> {
    seq(|plan|, i requires 0 <= i < |plan| => |plan[i]|)
  }

  /** How many ids each load got. */
  method PerRung(plan: seq<seq<nat>>, cells: seq<Cell>, loads: seq<string>) returns (sizes: seq<nat>)
    requires |plan| == |cells|
    ensures |sizes| == |loads|
    ensures forall p | 0 <= p < |loads| :: sizes[p] == RungTotal(Sizes(plan), cells, loads[p], |cells|)
  {
    sizes := [];
    for p := 0 to |loads|
      invariant |sizes| == p
      invariant forall q | 0 <= q < p :: sizes[q] == RungTotal(Sizes(plan), cells, loads[q], |cells|)
    {
      var size: nat := 0;
      for i := 0 to |cells|
        invariant size == RungTotal(Sizes(plan), cells, loads[p], i)
      {
        size := size + if cells[i].rung == loads[p] then |plan[i]| else 0;
      }
      sizes := sizes + [size];
    }
  }

  lemma {:induction false} SizesAreLengths(plan: seq<seq<nat>>)
    ensures Total(Sizes(plan)) == Lengths(plan)
  {
    if plan != [] {
      SizesAreLengths(plan[..|plan| - 1]);
      assert Sizes(plan)[..|plan| - 1] == Sizes(plan[..|plan| - 1]);
    }
  }

  /** The loads of the cells together got everything that was drawn. */
  lemma RungsGetAll(plan: seq<seq<nat>>, cells: seq<Cell>, rungs: seq<string>)
    requires |plan| == |cells| && ListsRungs(rungs, cells)
    ensures Sum(Range(|rungs|), RungPart(Sizes(plan), cells, rungs, |cells|)) == Lengths(plan) as real
  {
    TotalByRung(Sizes(plan), cells, rungs, |cells|);
    assert Sizes(plan)[..|cells|] == Sizes(plan);
    SizesAreLengths(plan);
  }

  lemma LengthsNext(plan: seq<seq<nat>>, ids: seq<nat>)
    ensures Lengths(plan + [ids]) == Lengths(plan) + |ids|
  {
    assert (plan + [ids])[..|plan|] == plan;
  }

  lemma CellsHaveRungs(rungs: seq<string>, cells: seq<Cell>)
    requires ListsRungs(rungs, cells)
    ensures forall i | 0 <= i < |cells| :: cells[i].rung in rungs
  {
  }

  lemma PerSizes(total: nat, rungs: seq<string>, cells: seq<Cell>, per: seq<seq<nat>>)
    requires |per| == 4 && forall b | 0 <= b < 4 :: Split(BucketTotal(total, b), rungs, cells, per[b])
    ensures forall b | 0 <= b < 4 :: |per[b]| == |cells|
    ensures Planned(per, 0) == 0
  {
    assert forall b | 0 <= b < 4 :: per[b][..0] == [];
  }

  lemma PerIsQuotas(total: nat, rungs: seq<string>, cells: seq<Cell>, per: seq<seq<nat>>, i: nat)
    requires |per| == 4 && forall b | 0 <= b < 4 :: Split(BucketTotal(total, b), rungs, cells, per[b])
    requires i < |cells| && cells[i].rung in rungs
    ensures forall b | 0 <= b < 4 :: |per[b]| == |cells|
    ensures [per[0][i], per[1][i], per[2][i], per[3][i]] == QuotasOf(total, rungs, cells, i)
  {
    hide BucketTotal, CellQuota;
    forall b | 0 <= b < 4
      ensures |per[b]| == |cells| && per[b][i] == CellQuota(BucketTotal(total, b), rungs, cells, i)
    {
    }
  }
}
