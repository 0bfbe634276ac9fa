/** The per-task read: a backward scan with an early stop, and exactly how much waiting it finds. */
module SerialScan {
  import opened Reals
  import opened Sorting
  import opened Sums
  import opened Waiting
  import opened Wrappers

  /** Which predecessors are counted: all, those of the own batch (as the scripts do), or all others. */
  datatype Kind = Any | Batch | Other

  /** The waiting of r behind p on one platform. */
  function OnPlatform(kind: Kind): (Record, Record) -> real {
    (p: Record, r: Record) =>
      if (kind.Batch? && !SameBatch(p, r)) || (kind.Other? && SameBatch(p, r)) then 0.0 else Wait(p, r)
  }

  /** The same over all records: other platforms add nothing. */
  function Pair(kind: Kind): (Record, Record) -> real {
    match kind
    case Any => AnyPair
    case Batch => BatchPair
    case Other => OtherPair
  }

  // ----- one scan -----

  /** Waiting of r behind the last j served tasks before it, stopping at the first that finished too early. */
  function Scan(tasks: seq<Record>, r: Record, j: nat, kind: Kind): real
    requires j <= |tasks|
  {
    if j == 0 || tasks[j - 1].done <= r.Scheduled() then 0.0
    else OnPlatform(kind)(tasks[j - 1], r) + Scan(tasks, r, j - 1, kind)
  }

  /** The waiting behind the tasks before the one at which the scan stops. */
  function Missed(tasks: seq<Record>, r: Record, j: nat, kind: Kind): real
    requires j <= |tasks|
  {
    if j == 0 then 0.0
    else if tasks[j - 1].done <= r.Scheduled() then Sum(tasks[..j - 1], Row(Flip(OnPlatform(kind)), r))
    else Missed(tasks, r, j - 1, kind)
  }

  /** Nothing that r waits for comes before a task that finished before r was committed. */
  ghost predicate MissesNothing(tasks: seq<Record>, r: Record, j: nat, kind: Kind)
    requires j <= |tasks|
  {
    forall i, k | 0 <= i < k < j && tasks[k].done <= r.Scheduled() :: OnPlatform(kind)(tasks[i], r) == 0.0
  }

  lemma NoWaitBehindFinished(p: Record, r: Record, kind: Kind)
    requires p.done <= r.Scheduled()
    ensures OnPlatform(kind)(p, r) == 0.0
  {
  }

  /** What the scan finds and what it misses is all the waiting behind the predecessors. */
  lemma {:induction false} ScanAndMissed(tasks: seq<Record>, r: Record, j: nat, kind: Kind)
    requires j <= |tasks|
    ensures Scan(tasks, r, j, kind) + Missed(tasks, r, j, kind) == Sum(tasks[..j], Row(Flip(OnPlatform(kind)), r))
  {
    if j > 0 {
      hide OnPlatform;
      var f := Row(Flip(OnPlatform(kind)), r);
      assert tasks[..j] == tasks[..j - 1] + [tasks[j - 1]];
      SumSnoc(tasks[..j - 1], tasks[j - 1], f);
      if tasks[j - 1].done <= r.Scheduled() {
        NoWaitBehindFinished(tasks[j - 1], r, kind);
      } else {
        ScanAndMissed(tasks, r, j - 1, kind);
      }
    }
  }

  /** What it misses is nothing exactly if no task before the stop is waited for. */
  lemma {:induction false} MissedSign(tasks: seq<Record>, r: Record, j: nat, kind: Kind)
    requires j <= |tasks|
    ensures Missed(tasks, r, j, kind) >= 0.0
    ensures Missed(tasks, r, j, kind) == 0.0 <==> MissesNothing(tasks, r, j, kind)
  {
    if j > 0 {
      if tasks[j - 1].done <= r.Scheduled() {
        var before := tasks[..j - 1];
        SumNonNegative(before, Row(Flip(OnPlatform(kind)), r));
        assert forall i | 0 <= i < j - 1 :: before[i] == tasks[i] && tasks[i] in before;
      } else {
        MissedSign(tasks, r, j - 1, kind);
      }
    }
  }

  ghost predicate DoneInOrder(tasks: seq<Record>) {
    forall i, j | 0 <= i < j < |tasks| :: tasks[i].done <= tasks[j].done
  }

  ghost predicate ByArrival(tasks: seq<Record>) {
    forall i, j | 0 <= i < j < |tasks| :: tasks[i].arrived <= tasks[j].arrived
  }

  /** Where tasks complete in the order of the list, everything before the stop finished even earlier. */
  lemma InOrderMissesNothing(tasks: seq<Record>, r: Record, j: nat, kind: Kind)
    requires j <= |tasks| && DoneInOrder(tasks)
    ensures MissesNothing(tasks, r, j, kind)
  {
  }

  lemma NoWaitBehindSuccessors(tasks: seq<Record>, idx: nat, kind: Kind)
    requires idx < |tasks| && ByArrival(tasks)
    ensures Sum(tasks[idx..], Row(Flip(OnPlatform(kind)), tasks[idx])) == 0.0
  {
    var r := tasks[idx];
    var f := Row(Flip(OnPlatform(kind)), r);
    forall p | p in tasks[idx..]
      ensures f(p) == 0.0
    {
      var k :| 0 <= k < |tasks[idx..]| && tasks[idx..][k] == p;
      assert p == tasks[idx + k];
      NoWaitBehindLaterStart(p, r);
    }
    SumConstant(tasks[idx..], f, 0.0);
  }

  /** Looking only at predecessors loses nothing: a task that starts later cannot hold an earlier one up. */
  lemma ScanAndMissedAll(tasks: seq<Record>, idx: nat, kind: Kind)
    requires idx < |tasks| && ByArrival(tasks)
    ensures Scan(tasks, tasks[idx], idx, kind) + Missed(tasks, tasks[idx], idx, kind)
         == RowSum(Flip(OnPlatform(kind)), tasks)(tasks[idx])
  {
    hide OnPlatform, Sum, Scan, Missed, ByArrival;
    var f := Row(Flip(OnPlatform(kind)), tasks[idx]);
    ScanAndMissed(tasks, tasks[idx], idx, kind);
    NoWaitBehindSuccessors(tasks, idx, kind);
    assert tasks == tasks[..idx] + tasks[idx..];
    SumAppend(tasks[..idx], tasks[idx..], f);
  }

  // ----- one platform -----

  /** What the scans add up over the first n tasks of a platform. */
  function PlatformScan(tasks: seq<Record>, n: nat, kind: Kind): real
    requires n <= |tasks|
  {
    if n == 0 then 0.0
    else PlatformScan(tasks, n - 1, kind) + Scan(tasks, tasks[n - 1], n - 1, kind)
  }

  function PlatformMissed(tasks: seq<Record>, n: nat, kind: Kind): real
    requires n <= |tasks|
  {
    if n == 0 then 0.0
    else PlatformMissed(tasks, n - 1, kind) + Missed(tasks, tasks[n - 1], n - 1, kind)
  }

  lemma {:induction false} PlatformSum(tasks: seq<Record>, n: nat, kind: Kind)
    requires n <= |tasks| && ByArrival(tasks)
    ensures PlatformScan(tasks, n, kind) + PlatformMissed(tasks, n, kind)
         == Sum(tasks[..n], RowSum(Flip(OnPlatform(kind)), tasks))
  {
    if n > 0 {
      hide Scan, Missed, OnPlatform, ByArrival;
      PlatformSum(tasks, n - 1, kind);
      ScanAndMissedAll(tasks, n - 1, kind);
      assert tasks[..n] == tasks[..n - 1] + [tasks[n - 1]];
      SumSnoc(tasks[..n - 1], tasks[n - 1], RowSum(Flip(OnPlatform(kind)), tasks));
    }
  }

  lemma {:induction false} PlatformMissedSign(tasks: seq<Record>, n: nat, kind: Kind)
    requires n <= |tasks|
    ensures PlatformMissed(tasks, n, kind) >= 0.0
    ensures PlatformMissed(tasks, n, kind) == 0.0
      <==> forall idx | 0 <= idx < n :: MissesNothing(tasks, tasks[idx], idx, kind)
  {
    if n > 0 {
      hide Missed, MissesNothing;
      PlatformMissedSign(tasks, n - 1, kind);
      MissedSign(tasks, tasks[n - 1], n - 1, kind);
    }
  }

  // ----- all platforms -----

  function KeyOf(): Record -> Option<string> {
    (r: Record) => r.Key()
  }

  function ArrivalOrder(): (Record, Record) -> bool {
    (p: Record, r: Record) => p.arrived <= r.arrived
  }

  function ByArrived(tasks: seq<Record>): (r: seq<Record>)
    ensures multiset(r) == multiset(tasks) && ByArrival(r)
  {
    var r := Sort(tasks, ArrivalOrder());
    assert forall i, j | 0 <= i < j < |r| :: ArrivalOrder()(r[i], r[j]);
    r
  }

  /** The tasks of one platform, in order of arrival. */
  function ServedOn(recs: seq<Record>, k: Option<string>): seq<Record> {
    ByArrived(Filtered(recs, KeyOf(), k))
  }

  function ScanOf(recs: seq<Record>, kind: Kind): Option<string> -> real {
    (k: Option<string>) => if k.None? then 0.0 else PlatformScan(ServedOn(recs, k), |ServedOn(recs, k)|, kind)
  }

  function MissedOf(recs: seq<Record>, kind: Kind): Option<string> -> real {
    (k: Option<string>) => if k.None? then 0.0 else PlatformMissed(ServedOn(recs, k), |ServedOn(recs, k)|, kind)
  }

  function Platforms(recs: seq<Record>): set<Option<string>> {
    set r | r in recs && r.Key().Some? :: r.Key()
  }

  /** behind_any_predecessor and behind_same_batch, as the loops compute them, and their difference. */
  ghost function Behind(recs: seq<Record>, kind: Kind): real {
    SetSum(Platforms(recs), ScanOf(recs, kind))
  }

  /** The waiting that the early stops of all scans leave out. */
  ghost function MissedBehind(recs: seq<Record>, kind: Kind): real {
    SetSum(Platforms(recs), MissedOf(recs, kind))
  }

  /** No scan stops in front of something that is waited for. */
  ghost predicate NothingMissed(recs: seq<Record>, kind: Kind) {
    forall k, idx | k in Platforms(recs) && 0 <= idx < |ServedOn(recs, k)| ::
      MissesNothing(ServedOn(recs, k), ServedOn(recs, k)[idx], idx, kind)
  }

  ghost predicate CompletesInOrder(recs: seq<Record>) {
    forall k | k in Platforms(recs) :: DoneInOrder(ServedOn(recs, k))
  }

  /** What a task waits behind its platform is what it waits behind all tasks, other platforms adding nothing. */
  lemma OwnPlatformOnly(recs: seq<Record>, r: Record, kind: Kind)
    requires r.Key().Some?
    ensures Sum(Filtered(recs, KeyOf(), r.Key()), Row(Flip(OnPlatform(kind)), r))
         == RowSum(Flip(Pair(kind)), recs)(r)
  {
    FilteredSum(recs, KeyOf(), r.Key(), Row(Flip(OnPlatform(kind)), r));
    forall p | p in recs
      ensures OnlyKey(KeyOf(), r.Key(), Row(Flip(OnPlatform(kind)), r))(p) == Row(Flip(Pair(kind)), r)(p)
    {
      assert Row(Flip(Pair(kind)), r)(p) == Pair(kind)(p, r);
      assert Row(Flip(OnPlatform(kind)), r)(p) == OnPlatform(kind)(p, r);
    }
    SumCongruent(recs, OnlyKey(KeyOf(), r.Key(), Row(Flip(OnPlatform(kind)), r)), Row(Flip(Pair(kind)), r));
  }

  lemma PlatformPairs(recs: seq<Record>, k: Option<string>, kind: Kind)
    requires k.Some?
    ensures ScanOf(recs, kind)(k) + MissedOf(recs, kind)(k)
         == Sum(Filtered(recs, KeyOf(), k), RowSum(Flip(Pair(kind)), recs))
  {
    hide OnPlatform, Pair, ByArrival, PlatformScan, PlatformMissed;
    var all, tasks := Filtered(recs, KeyOf(), k), ServedOn(recs, k);
    var f := Flip(OnPlatform(kind));
    PlatformSum(tasks, |tasks|, kind);
    assert tasks[..|tasks|] == tasks;
    SumPermutation(tasks, all, RowSum(f, tasks));
    FilteredHaveKey(recs, KeyOf(), k);
    forall r | r in all
      ensures RowSum(f, tasks)(r) == RowSum(Flip(Pair(kind)), recs)(r)
    {
      SumPermutation(tasks, all, Row(f, r));
      OwnPlatformOnly(recs, r, kind);
    }
    SumCongruent(all, RowSum(f, tasks), RowSum(Flip(Pair(kind)), recs));
  }

  function FilteredTotal(recs: seq<Record>, f: Record -> real): Option<string> -> real {
    (k: Option<string>) => Sum(Filtered(recs, KeyOf(), k), f)
  }

  lemma {:induction false} GroupedKeys(recs: seq<Record>)
    ensures Platforms(recs) <= Grouped(recs, KeyOf()).Keys <= Platforms(recs) + {None}
  {
    if recs != [] {
      var front, last := recs[..|recs| - 1], recs[|recs| - 1];
      GroupedKeys(front);
      assert recs == front + [last];
      assert forall r :: r in recs <==> r in front || r == last;
    }
  }

  /** Platform by platform covers every record that has a platform. */
  lemma PlatformsCover(recs: seq<Record>, f: Record -> real)
    requires forall r | r in recs && r.Key().None? :: f(r) == 0.0
    ensures SetSum(Platforms(recs), FilteredTotal(recs, f)) == Sum(recs, f)
  {
    var groups := Grouped(recs, KeyOf());
    GroupingKeepsSum(recs, KeyOf(), f);
    GroupedKeys(recs);
    forall k | k in groups
      ensures BucketSum(groups, f)(k) == FilteredTotal(recs, f)(k)
    {
      BucketIsFiltered(recs, KeyOf(), k);
    }
    SetSumCongruent(groups.Keys, BucketSum(groups, f), FilteredTotal(recs, f));
    FilteredHaveKey(recs, KeyOf(), None);
    SumConstantZero(Filtered(recs, KeyOf(), None), f);
    SetSumPad(Platforms(recs), groups.Keys, FilteredTotal(recs, f));
  }

  lemma SumConstantZero(s: seq<Record>, f: Record -> real)
    ensures (forall r | r in s :: f(r) == 0.0) ==> Sum(s, f) == 0.0
  {
    if forall r | r in s :: f(r) == 0.0 {
      SumConstant(s, f, 0.0);
    }
  }

  lemma NoKeyNoWait(recs: seq<Record>, r: Record, kind: Kind)
    requires r.Key().None?
    ensures RowSum(Flip(Pair(kind)), recs)(r) == 0.0
  {
    forall p | p in recs
      ensures Row(Flip(Pair(kind)), r)(p) == 0.0
    {
      assert Row(Flip(Pair(kind)), r)(p) == Pair(kind)(p, r);
    }
    SumConstant(recs, Row(Flip(Pair(kind)), r), 0.0);
  }

  /** Whatever the records: what the loops find and what their early stops miss is the waiting of every task behind
      every other task of its platform. */
  lemma ScansAndMissed(recs: seq<Record>, kind: Kind)
    ensures Behind(recs, kind) + MissedBehind(recs, kind) == DoubleSum(recs, recs, Pair(kind))
  {
    var f := RowSum(Flip(Pair(kind)), recs);
    forall r | r in recs && r.Key().None?
      ensures f(r) == 0.0
    {
      NoKeyNoWait(recs, r, kind);
    }
    forall k | k in Platforms(recs)
      ensures FilteredTotal(recs, f)(k) == ScanOf(recs, kind)(k) + MissedOf(recs, kind)(k)
    {
      PlatformPairs(recs, k, kind);
    }
    hide Pair, ScanOf, MissedOf;
    SetSumPlus(Platforms(recs), FilteredTotal(recs, f), ScanOf(recs, kind), MissedOf(recs, kind));
    PlatformsCover(recs, f);
    DoubleSumSwap(recs, recs, Pair(kind));
  }

  lemma MissedBehindSign(recs: seq<Record>, kind: Kind)
    ensures MissedBehind(recs, kind) >= 0.0
    ensures MissedBehind(recs, kind) == 0.0 <==> NothingMissed(recs, kind)
  {
    hide PlatformMissed, MissesNothing, ServedOn;
    forall k | k in Platforms(recs)
      ensures MissedOf(recs, kind)(k) >= 0.0
      ensures MissedOf(recs, kind)(k) == 0.0 <==> forall idx | 0 <= idx < |ServedOn(recs, k)| ::
                                                    MissesNothing(ServedOn(recs, k), ServedOn(recs, k)[idx], idx, kind)
    {
      PlatformMissedSign(ServedOn(recs, k), |ServedOn(recs, k)|, kind);
    }
    SetSumNonNegative(Platforms(recs), MissedOf(recs, kind));
  }

  /** The loops never count too much, and count exactly the waiting of every task behind every other task of its
      platform if and only if no scan stops in front of something that is waited for. */
  lemma ScanCountsAllPairs(recs: seq<Record>, kind: Kind)
    ensures Behind(recs, kind) <= DoubleSum(recs, recs, Pair(kind))
    ensures Behind(recs, kind) == DoubleSum(recs, recs, Pair(kind)) <==> NothingMissed(recs, kind)
  {
    ScansAndMissed(recs, kind);
    MissedBehindSign(recs, kind);
  }

  /** In particular when every platform completes its tasks in the order they reach it. */
  lemma InOrderNothingMissed(recs: seq<Record>, kind: Kind)
    requires CompletesInOrder(recs)
    ensures NothingMissed(recs, kind)
  {
    hide MissesNothing, DoneInOrder, ServedOn;
    forall k, idx | k in Platforms(recs) && 0 <= idx < |ServedOn(recs, k)|
      ensures MissesNothing(ServedOn(recs, k), ServedOn(recs, k)[idx], idx, kind)
    {
      InOrderMissesNothing(ServedOn(recs, k), ServedOn(recs, k)[idx], idx, kind);
    }
  }

  // ----- the difference of the two totals -----

  lemma {:induction false} ScanOther(tasks: seq<Record>, r: Record, j: nat)
    requires j <= |tasks|
    ensures Scan(tasks, r, j, Any) == Scan(tasks, r, j, Batch) + Scan(tasks, r, j, Other)
  {
    if j > 0 && tasks[j - 1].done > r.Scheduled() {
      ScanOther(tasks, r, j - 1);
    }
  }

  lemma {:induction false} PlatformOther(tasks: seq<Record>, n: nat)
    requires n <= |tasks|
    ensures PlatformScan(tasks, n, Any) == PlatformScan(tasks, n, Batch) + PlatformScan(tasks, n, Other)
  {
    if n > 0 {
      hide Scan;
      PlatformOther(tasks, n - 1);
      ScanOther(tasks, tasks[n - 1], n - 1);
    }
  }

  /** any-predecessor less same-batch is what the scans find behind other commits. */
  lemma BehindOther(recs: seq<Record>)
    ensures Behind(recs, Any) - Behind(recs, Batch) == Behind(recs, Other)
  {
    forall k | k in Platforms(recs)
      ensures ScanOf(recs, Any)(k) == ScanOf(recs, Batch)(k) + ScanOf(recs, Other)(k)
    {
      PlatformOther(ServedOn(recs, k), |ServedOn(recs, k)|);
    }
    hide ScanOf;
    SetSumPlus(Platforms(recs), ScanOf(recs, Any), ScanOf(recs, Batch), ScanOf(recs, Other));
  }

  // ----- an instance where waiting is lost -----

  /** Two tasks reach the platform together and the one of no length is listed last; a third one waits for the first. */
  function LossyRecords(): seq<Record> {
    var node, plat := Some("n"), Some("0");
    [Record(1, node, plat, Some(0.0), 5.0, 9.0, 5.0), Record(2, node, plat, Some(0.0), 5.0, 5.0, 5.0),
     Record(3, node, plat, Some(5.0), 9.0, 10.0, 4.0)]
  }

  lemma LossyKeys(r: Record)
    requires r in LossyRecords()
    ensures r.Key() == Some("n:0")
  {
    assert "n" + ":" + "0" == "n:0";
  }

  lemma OneKey(recs: seq<Record>, k: Option<string>)
    requires recs != [] && k.Some? && forall r | r in recs :: r.Key() == k
    requires SortedBy(recs, ArrivalOrder())
    ensures Platforms(recs) == {k} && ServedOn(recs, k) == recs
  {
    hide Filtered, Sort, SortedBy;
    FilteredAll(recs, KeyOf(), k);
    SortSorted(recs, ArrivalOrder());
    hide ServedOn;
    assert recs[0] in recs && recs[0].Key() in Platforms(recs);
    assert forall x | x in Platforms(recs) :: x == k;
  }

  lemma LossyScan()
    ensures var recs := LossyRecords();
      && |recs| == 3 && SortedBy(recs, ArrivalOrder())
      && PlatformScan(recs, |recs|, Any) == 0.0 && PlatformMissed(recs, |recs|, Any) == 4.0
  {
    var recs := LossyRecords();
    var f := Row(Flip(OnPlatform(Any)), recs[2]);
    assert recs[2].Scheduled() == 5.0 && recs[1].Scheduled() == recs[0].Scheduled() == 0.0;
    assert Missed(recs, recs[2], 2, Any) == 4.0 by {
      assert recs[..1] == [recs[0]] && [recs[0]][1..] == [];
      assert Sum([recs[0]], f) == f(recs[0]) + Sum([], f);
    }
    assert Scan(recs, recs[2], 2, Any) == 0.0;
    assert Scan(recs, recs[1], 1, Any) == 0.0 && Missed(recs, recs[1], 1, Any) == 0.0;
    assert PlatformScan(recs, 1, Any) == 0.0 && PlatformMissed(recs, 1, Any) == 0.0;
    assert PlatformScan(recs, 2, Any) == 0.0 && PlatformMissed(recs, 2, Any) == 0.0;
  }

  lemma LossyTotals()
    ensures var recs := LossyRecords();
      Behind(recs, Any) == 0.0 && DoubleSum(recs, recs, AnyPair) == 4.0
  {
    hide PlatformScan, PlatformMissed, ServedOn, LossyRecords, Pair, DoubleSum, SortedBy;
    var recs, k := LossyRecords(), Some("n:0");
    forall r | r in recs
      ensures r.Key() == k
    {
      LossyKeys(r);
    }
    LossyScan();
    OneKey(recs, k);
    OnePlatform(recs, k, ScanOf(recs, Any));
    OnePlatform(recs, k, MissedOf(recs, Any));
    ScansAndMissed(recs, Any);
    assert Pair(Any) == AnyPair by { PairAny(); }
  }

  lemma PairAny()
    ensures Pair(Any) == AnyPair
  {
  }

  lemma OnePlatform(recs: seq<Record>, k: Option<string>, f: Option<string> -> real)
    requires Platforms(recs) == {k}
    ensures SetSum(Platforms(recs), f) == f(k)
  {
    assert {k} - {k} == {};
    SetSumRemove({k}, k, f);
  }

  lemma LossyDisjoint(p: Record, r: Record)
    requires p in LossyRecords() && r in LossyRecords() && p != r
    ensures Overlap(p.arrived, p.done, r.arrived, r.done) == 0.0
  {
  }

  /** The early stop does lose waiting: busy intervals do not overlap, yet the total is 0 and 4 seconds are spent. */
  lemma EarlyStopCanLoseWaiting()
    ensures var recs := LossyRecords();
      && (forall p, r | p in recs && r in recs && p != r :: Overlap(p.arrived, p.done, r.arrived, r.done) == 0.0)
      && Behind(recs, Any) == 0.0 && DoubleSum(recs, recs, AnyPair) == 4.0
  {
    hide Overlap, Behind, DoubleSum, LossyRecords;
    LossyTotals();
    forall p, r | p in LossyRecords() && r in LossyRecords() && p != r
      ensures Overlap(p.arrived, p.done, r.arrived, r.done) == 0.0
    {
      LossyDisjoint(p, r);
    }
  }

  // ----- waiting never exceeds queueing -----

  /** Busy intervals of a serial platform, in order of service. */
  ghost predicate Serial(tasks: seq<Record>) {
    && (forall i | 0 <= i < |tasks| :: tasks[i].arrived <= tasks[i].done)
    && (forall i, j | 0 <= i < j < |tasks| :: tasks[i].done <= tasks[j].arrived)
  }

  function QueueSpan(r: Record): real {
    if r.arrived > r.Scheduled() then r.arrived - r.Scheduled() else 0.0
  }

  /** Disjoint busy intervals cover at most the part of the queue interval that they reach. */
  lemma {:induction false} DisjointWaits(tasks: seq<Record>, r: Record, j: nat)
    requires j <= |tasks| && Serial(tasks)
    ensures Sum(tasks[..j], Row(Flip(OnPlatform(Any)), r))
         <= Overlap(r.Scheduled(), r.arrived, r.Scheduled(), if j == 0 then r.Scheduled() else tasks[j - 1].done)
  {
    if j > 0 {
      DisjointWaits(tasks, r, j - 1);
      assert tasks[..j] == tasks[..j - 1] + [tasks[j - 1]];
      SumSnoc(tasks[..j - 1], tasks[j - 1], Row(Flip(OnPlatform(Any)), r));
    }
  }

  lemma {:induction false} BatchWithinAny(tasks: seq<Record>, r: Record, j: nat)
    requires j <= |tasks|
    ensures 0.0 <= Scan(tasks, r, j, Batch) <= Scan(tasks, r, j, Any)
  {
    if j > 0 {
      BatchWithinAny(tasks, r, j - 1);
    }
  }

  lemma WaitWithinQueue(tasks: seq<Record>, idx: nat)
    requires idx < |tasks| && Serial(tasks)
    ensures 0.0 <= Scan(tasks, tasks[idx], idx, Batch) <= Scan(tasks, tasks[idx], idx, Any) <= QueueSpan(tasks[idx])
  {
    var r := tasks[idx];
    BatchWithinAny(tasks, r, idx);
    ScanAndMissed(tasks, r, idx, Any);
    MissedSign(tasks, r, idx, Any);
    hide Scan, Missed, MissesNothing, Serial;
    DisjointWaits(tasks, r, idx);
  }

  function TotalQueue(): Record -> real {
    (r: Record) => QueueSpan(r)
  }

  ghost predicate AllSerial(recs: seq<Record>) {
    forall k | k in Platforms(recs) :: Serial(ServedOn(recs, k))
  }

  lemma {:induction false} PlatformWithinQueue(tasks: seq<Record>, n: nat)
    requires n <= |tasks| && Serial(tasks)
    ensures 0.0 <= PlatformScan(tasks, n, Batch) <= PlatformScan(tasks, n, Any) <= Sum(tasks[..n], TotalQueue())
  {
    if n > 0 {
      PlatformWithinQueue(tasks, n - 1);
      WaitWithinQueue(tasks, n - 1);
      assert tasks[..n] == tasks[..n - 1] + [tasks[n - 1]];
      SumSnoc(tasks[..n - 1], tasks[n - 1], TotalQueue());
    }
  }

  function QueueWithKey(): Record -> real {
    (r: Record) => if r.Key().Some? then QueueSpan(r) else 0.0
  }

  /** On serial platforms: behind the same batch <= behind any task <= total time from schedule to start. */
  lemma WaitingBounds(recs: seq<Record>)
    requires AllSerial(recs)
    ensures 0.0 <= Behind(recs, Batch) <= Behind(recs, Any) <= Sum(recs, TotalQueue())
  {
    forall k | k in Platforms(recs)
      ensures 0.0 <= ScanOf(recs, Batch)(k) <= ScanOf(recs, Any)(k) <= FilteredTotal(recs, QueueWithKey())(k)
    {
      var all, tasks := Filtered(recs, KeyOf(), k), ServedOn(recs, k);
      PlatformWithinQueue(tasks, |tasks|);
      assert tasks[..|tasks|] == tasks;
      SumPermutation(tasks, all, TotalQueue());
      FilteredHaveKey(recs, KeyOf(), k);
      SumCongruent(all, TotalQueue(), QueueWithKey());
    }
    SetSumMonotone(Platforms(recs), ScanOf(recs, Batch), ScanOf(recs, Any));
    SetSumMonotone(Platforms(recs), ScanOf(recs, Any), FilteredTotal(recs, QueueWithKey()));
    SetSumNonNegative(Platforms(recs), ScanOf(recs, Batch));
    PlatformsCover(recs, QueueWithKey());
    SumMonotone(recs, QueueWithKey(), TotalQueue());
  }

  // ----- a condition on the records -----

  /** Busy intervals of positive length that do not overlap on any one platform. */
  ghost predicate BusyApart(recs: seq<Record>) {
    && (forall r | r in recs && r.Key().Some? :: r.arrived < r.done)
    && (forall i, j | 0 <= i < j < |recs| && SameKey(recs[i], recs[j]) ::
          recs[i].done <= recs[j].arrived || recs[j].done <= recs[i].arrived)
  }

  lemma OccursTwice(s: seq<Record>, i: nat, j: nat)
    requires i < j < |s| && s[i] == s[j]
    ensures multiset(s)[s[i]] >= 2
  {
    assert s == s[..j] + [s[j]] + s[j + 1..];
    assert s[..j][i] in s[..j];
  }

  lemma TwoPlaces(s: seq<Record>, x: Record) returns (i: nat, j: nat)
    requires multiset(s)[x] >= 2
    ensures i < |s| && j < |s| && i != j && s[i] == s[j] == x
  {
    i :| i < |s| && s[i] == x;
    var rest := s[..i] + s[i + 1..];
    assert s == s[..i] + [x] + s[i + 1..];
    assert x in multiset(rest);
    var k :| 0 <= k < |rest| && rest[k] == x;
    j := if k < i then k else k + 1;
  }

  /** Two tasks of a served list do not overlap. */
  lemma ServedApart(recs: seq<Record>, k: Option<string>, i: nat, j: nat)
    requires BusyApart(recs) && k.Some? && i < j < |ServedOn(recs, k)|
    ensures var p, r := ServedOn(recs, k)[i], ServedOn(recs, k)[j];
      p.arrived < p.done && r.arrived < r.done && (p.done <= r.arrived || r.done <= p.arrived)
  {
    var tasks := ServedOn(recs, k);
    var p, r := tasks[i], tasks[j];
    assert p in multiset(tasks) && r in multiset(tasks);
    FilteredHaveKey(recs, KeyOf(), k);
    assert p in recs && r in recs && SameKey(p, r);
    if p == r {
      OccursTwice(tasks, i, j);
      FilteredMultiset(recs, KeyOf(), k, p);
      var i', j' := TwoPlaces(recs, p);
    } else {
      var i' :| 0 <= i' < |recs| && recs[i'] == p;
      var j' :| 0 <= j' < |recs| && recs[j'] == r;
    }
  }

  /** Then every platform serves its tasks one after the other and completes them in order of arrival. */
  lemma BusyApartIsSerial(recs: seq<Record>)
    requires BusyApart(recs)
    ensures AllSerial(recs) && CompletesInOrder(recs)
  {
    forall k | k in Platforms(recs)
      ensures Serial(ServedOn(recs, k)) && DoneInOrder(ServedOn(recs, k))
    {
      var tasks := ServedOn(recs, k);
      assert ByArrival(tasks);
      hide ServedOn, BusyApart;
      forall i, j | 0 <= i < j < |tasks|
        ensures tasks[i].arrived <= tasks[i].done <= tasks[j].arrived <= tasks[j].done
      {
        ServedApart(recs, k, i, j);
      }
      SingleIsSerial(recs, k);
    }
  }

  lemma SingleIsSerial(recs: seq<Record>, k: Option<string>)
    requires BusyApart(recs) && k.Some?
    ensures forall i | 0 <= i < |ServedOn(recs, k)| :: ServedOn(recs, k)[i].arrived <= ServedOn(recs, k)[i].done
  {
    var tasks := ServedOn(recs, k);
    FilteredHaveKey(recs, KeyOf(), k);
    forall i | 0 <= i < |tasks|
      ensures tasks[i].arrived <= tasks[i].done
    {
      assert tasks[i] in multiset(tasks);
      assert tasks[i] in Filtered(recs, KeyOf(), k);
    }
  }

  /** So on records with busy intervals apart the totals are the waiting behind all tasks, within the time queued. */
  lemma BusyApartCounts(recs: seq<Record>)
    requires BusyApart(recs)
    ensures forall kind :: Behind(recs, kind) == DoubleSum(recs, recs, Pair(kind))
    ensures 0.0 <= Behind(recs, Batch) <= Behind(recs, Any) <= Sum(recs, TotalQueue())
  {
    hide BusyApart, AllSerial, CompletesInOrder, Behind, DoubleSum, NothingMissed;
    BusyApartIsSerial(recs);
    WaitingBounds(recs);
    forall kind
      ensures Behind(recs, kind) == DoubleSum(recs, recs, Pair(kind))
    {
      InOrderNothingMissed(recs, kind);
      ScanCountsAllPairs(recs, kind);
    }
  }

  // ----- the loops -----

  method ScanBack(tasks: seq<Record>, idx: nat) returns (all: real, sameBatch: real)
    requires idx < |tasks|
    ensures all == Scan(tasks, tasks[idx], idx, Any)
    ensures sameBatch == Scan(tasks, tasks[idx], idx, Batch)
  {
    var rec := tasks[idx];
    all, sameBatch := 0.0, 0.0;
    var j := idx;
    while j > 0 && tasks[j - 1].done > rec.Scheduled()
      invariant 0 <= j <= idx
      invariant all + Scan(tasks, rec, j, Any) == Scan(tasks, rec, idx, Any)
      invariant sameBatch + Scan(tasks, rec, j, Batch) == Scan(tasks, rec, idx, Batch)
    {
      var prev := tasks[j - 1];
      var ov := Overlap(prev.arrived, prev.done, rec.Scheduled(), rec.arrived);
      if ov > 0.0 {
        all := all + ov;
        if SameBatch(prev, rec) {
          sameBatch := sameBatch + ov;
        }
      }
      j := j - 1;
    }
  }

  lemma {:induction false} NoQueueNoWait(tasks: seq<Record>, r: Record, j: nat, kind: Kind)
    requires j <= |tasks| && r.arrived <= r.Scheduled()
    ensures Scan(tasks, r, j, kind) == 0.0
  {
    if j > 0 {
      NoQueueNoWait(tasks, r, j - 1, kind);
    }
  }

  method ScanPlatform(tasks: seq<Record>) returns (all: real, sameBatch: real)
    ensures all == PlatformScan(tasks, |tasks|, Any)
    ensures sameBatch == PlatformScan(tasks, |tasks|, Batch)
  {
    all, sameBatch := 0.0, 0.0;
    for idx := 0 to |tasks|
      invariant all == PlatformScan(tasks, idx, Any)
      invariant sameBatch == PlatformScan(tasks, idx, Batch)
    {
      if tasks[idx].arrived <= tasks[idx].Scheduled() {
        NoQueueNoWait(tasks, tasks[idx], idx, Any);
        NoQueueNoWait(tasks, tasks[idx], idx, Batch);
      } else {
        var a, s := ScanBack(tasks, idx);
        all, sameBatch := all + a, sameBatch + s;
      }
    }
  }

  method GroupByPlatform(recs: seq<Record>) returns (byPlatform: map<Option<string>, seq<Record>>)
    ensures byPlatform.Keys == Platforms(recs)
    ensures forall k | k in byPlatform :: byPlatform[k] == Filtered(recs, KeyOf(), k)
  {
    hide Record.Key;
    byPlatform := map[];
    for i := 0 to |recs|
      invariant byPlatform.Keys == Platforms(recs[..i])
      invariant forall k: Option<string> | k.Some? :: Bucket(byPlatform, k) == Filtered(recs[..i], KeyOf(), k)
    {
      var rec := recs[i];
      assert recs[..i + 1] == recs[..i] + [rec] && recs[..i + 1][..i] == recs[..i];
      if rec.Key().Some? {
        byPlatform := Append(byPlatform, rec.Key(), rec);
      }
    }
    assert recs[..|recs|] == recs;
  }

  function QueueTime(): Record -> real {
    (r: Record) => r.queued
  }

  /** The totals of the read; the shares are in percent, and zero without any queue time. */
  datatype Reading = Reading(totalQueue: real, any: real, sameBatch: real) {
    function ShareAny(): real {
      if totalQueue == 0.0 then 0.0 else 100.0 * any / totalQueue
    }

    function ShareSameBatch(): real {
      if totalQueue == 0.0 then 0.0 else 100.0 * sameBatch / totalQueue
    }
  }

  method TotalQueueTime(recs: seq<Record>) returns (total: real)
    ensures total == Sum(recs, QueueTime())
  {
    total := 0.0;
    for i := 0 to |recs|
      invariant total == Sum(recs[..i], QueueTime())
    {
      assert recs[..i + 1] == recs[..i] + [recs[i]];
      SumSnoc(recs[..i], recs[i], QueueTime());
      total := total + recs[i].queued;
    }
    assert recs[..|recs|] == recs;
  }

  method Serialization(recs: seq<Record>) returns (r: Reading)
    ensures r.totalQueue == Sum(recs, QueueTime())
    ensures r.any == Behind(recs, Any) && r.sameBatch == Behind(recs, Batch)
  {
    var byPlatform := GroupByPlatform(recs);
    var total := TotalQueueTime(recs);
    var any, sameBatch := 0.0, 0.0;
    var todo := byPlatform.Keys;
    while todo != {}
      invariant todo <= Platforms(recs)
      invariant any + SetSum(todo, ScanOf(recs, Any)) == Behind(recs, Any)
      invariant sameBatch + SetSum(todo, ScanOf(recs, Batch)) == Behind(recs, Batch)
    {
      var k :| k in todo;
      var tasks := ByArrived(byPlatform[k]);
      var a, s := ScanPlatform(tasks);
      SetSumRemove(todo, k, ScanOf(recs, Any));
      SetSumRemove(todo, k, ScanOf(recs, Batch));
      any, sameBatch := any + a, sameBatch + s;
      todo := todo - {k};
    }
    return Reading(total, any, sameBatch);
  }

  /** Where the recorded queue times are the spans from schedule to start, the shares lie in 0 to 100 percent, that of
      the own batch below the other. */
  lemma SharesInRange(recs: seq<Record>, r: Reading)
    requires AllSerial(recs) && forall x | x in recs :: x.queued == QueueSpan(x)
    requires r.totalQueue == Sum(recs, QueueTime()) && r.any == Behind(recs, Any) && r.sameBatch == Behind(recs, Batch)
    ensures 0.0 <= r.ShareSameBatch() <= r.ShareAny() <= 100.0
  {
    hide AllSerial, Behind, Sum;
    WaitingBounds(recs);
    SumCongruent(recs, QueueTime(), TotalQueue());
    ShareBounds(r);
  }

  /** A share is in percent of the total queue time. */
  lemma SharesArePercent(r: Reading)
    requires r.totalQueue != 0.0
    ensures r.ShareAny() * r.totalQueue == 100.0 * r.any
    ensures r.ShareSameBatch() * r.totalQueue == 100.0 * r.sameBatch
  {
  }

  lemma ShareBounds(r: Reading)
    requires 0.0 <= r.sameBatch <= r.any <= r.totalQueue
    ensures 0.0 <= r.ShareSameBatch() <= r.ShareAny() <= 100.0
  {
    if r.totalQueue != 0.0 {
      PartOfWhole(100.0 * r.sameBatch, 100.0 * r.any, r.totalQueue);
      PartOfWhole(100.0 * r.any, 100.0 * r.totalQueue, r.totalQueue);
    }
  }

  lemma PartOfWhole(x: real, y: real, z: real)
    requires 0.0 <= x <= y && z > 0.0
    ensures 0.0 <= x / z <= y / z
    ensures y == 100.0 * z ==> y / z == 100.0
  {
    NonNegativeQuotient(x, z);
    NonNegativeQuotient(y - x, z);
    assert y / z - x / z == (y - x) / z;
    assert 100.0 * z / z == 100.0;
  }
}
