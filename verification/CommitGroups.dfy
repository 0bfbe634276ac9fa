/** The externality read: predicted against realized waiting per commit group, and its agreement with the scan. */
module CommitGroups {
  import Externality
  import opened SerialScan
  import opened Sorting
  import opened Sums
  import opened Waiting
  import opened Wrappers

  /** (platform key, commit instant) */
  type GroupKey = (string, real)

  function PlatformOf(): Record -> string {
    (r: Record) => r.PrintedKey()
  }

  function GroupOf(): Record -> GroupKey {
    (r: Record) => (r.PrintedKey(), r.Scheduled())
  }

  // ----- what one group predicts and inflicts -----

  function Service(): Record -> real {
    (m: Record) => m.done - m.arrived
  }

  /** Seconds of o's work still to do at time t, if it was committed before. */
  function Remaining(t: real): Record -> real {
    (o: Record) =>
      if o.Scheduled() >= t || o.done <= t then 0.0
      else o.done - if o.arrived < t then t else o.arrived
  }

  predicate HasId(members: seq<Record>, id: int) {
    exists i | 0 <= i < |members| :: members[i].taskId == id
  }

  /** The waiting of o behind the members, if it was committed after them and did queue. */
  function Behindness(members: seq<Record>, t: real): Record -> real {
    (o: Record) =>
      if HasId(members, o.taskId) || o.Scheduled() <= t || o.arrived <= o.Scheduled() then 0.0
      else Sum(members, Row(Flip(Wait), o))
  }

  /** The shaped term without lambda: a new seconds of work behind b seconds of backlog. */
  function Gain(b: real, a: real): real {
    0.5 * ((b + a) * (b + a) - b * b)
  }

  /** The closed form on measured quantities: lambda folded into a fitted slope. */
  function Predicted(members: seq<Record>, items: seq<Record>, t: real): real {
    Gain(Sum(items, Remaining(t)), Sum(members, Service()))
  }

  function Inflicted(members: seq<Record>, items: seq<Record>, t: real): real {
    Sum(items, Behindness(members, t))
  }

  /** The prediction is the shaped label's charge at unit arrival rate. */
  lemma PredictedIsCharge(members: seq<Record>, items: seq<Record>, t: real)
    requires Sum(members, Service()) > 0.0
    ensures Predicted(members, items, t)
         == Externality.Charge(1.0, Sum(items, Remaining(t)), Sum(members, Service()))
  {
  }

  /** The busy time before t, from any moment at which the task had not started, and what remains at t are its whole
      busy time; what is not committed before t does not count. */
  lemma RemainingIsRest(o: Record, t: real, early: real)
    requires o.arrived <= o.done && early <= o.arrived && early <= t
    ensures o.Scheduled() < t ==> Overlap(o.arrived, o.done, early, t) + Remaining(t)(o) == o.done - o.arrived
    ensures o.Scheduled() < t ==> 0.0 <= Remaining(t)(o) <= o.done - o.arrived
    ensures o.Scheduled() >= t ==> Remaining(t)(o) == 0.0
    ensures Service()(o) == o.done - o.arrived == Overlap(o.arrived, o.done, o.arrived, o.done)
  {
  }

  // ----- grouping -----

  method GroupBy<K(==), T>(s: seq<T>, key: T -> K) returns (groups: map<K, seq<T>>)
    ensures groups == Grouped(s, key)
  {
    groups := map[];
    for i := 0 to |s|
      invariant groups == Grouped(s[..i], key)
    {
      assert s[..i + 1] == s[..i] + [s[i]];
      GroupedSnoc(s[..i], s[i], key);
      groups := Append(groups, key(s[i]), s[i]);
    }
    assert s[..|s|] == s;
  }

  /** The records of some platforms, in order. */
  function KeepKeys(recs: seq<Record>, keys: set<string>): seq<Record> {
    if recs == [] then []
    else KeepKeys(recs[..|recs| - 1], keys)
         + if recs[|recs| - 1].PrintedKey() in keys then [recs[|recs| - 1]] else []
  }

  lemma {:induction false} KeepOneMore(recs: seq<Record>, keys: set<string>, k: string)
    requires k !in keys
    ensures multiset(KeepKeys(recs, keys + {k}))
         == multiset(KeepKeys(recs, keys)) + multiset(Filtered(recs, PlatformOf(), k))
  {
    if recs != [] {
      KeepOneMore(recs[..|recs| - 1], keys, k);
    }
  }

  lemma {:induction false} KeepAll(recs: seq<Record>, keys: set<string>)
    requires forall r | r in recs :: r.PrintedKey() in keys
    ensures KeepKeys(recs, keys) == recs
  {
    if recs != [] {
      var front, last := recs[..|recs| - 1], recs[|recs| - 1];
      assert recs == front + [last];
      assert last in recs && forall r | r in front :: r in recs;
      KeepAll(front, keys);
    }
  }

  lemma {:induction false} KeepNone(recs: seq<Record>)
    ensures KeepKeys(recs, {}) == []
  {
    if recs != [] {
      KeepNone(recs[..|recs| - 1]);
    }
  }

  lemma {:induction false} KeyIsGrouped(recs: seq<Record>)
    ensures forall r | r in recs :: r.PrintedKey() in Grouped(recs, PlatformOf())
  {
    if recs != [] {
      KeyIsGrouped(recs[..|recs| - 1]);
      assert recs == recs[..|recs| - 1] + [recs[|recs| - 1]];
    }
  }

  function ScheduleOrder(): (Record, Record) -> bool {
    (p: Record, r: Record) => p.Scheduled() <= r.Scheduled()
  }

  /** by_platform with every list sorted by schedule time, and the groups read off it, one list after the other:
      the groups are those of some rearrangement of the records. */
  method BuildGroups(recs: seq<Record>)
      returns (byPlatform: map<string, seq<Record>>, groups: map<GroupKey, seq<Record>>, ghost flat: seq<Record>)
    ensures byPlatform.Keys == Grouped(recs, PlatformOf()).Keys
    ensures forall k | k in byPlatform :: multiset(byPlatform[k]) == multiset(Filtered(recs, PlatformOf(), k))
    ensures multiset(flat) == multiset(recs) && groups == Grouped(flat, GroupOf())
  {
    hide Grouped, Filtered, KeepKeys, Sort, PlatformOf, GroupOf;
    var lists := GroupBy(recs, PlatformOf());
    byPlatform, groups, flat := map[], map[], [];
    var todo := lists.Keys;
    ghost var done: set<string> := {};
    KeepNone(recs);
    NoGroups();
    while todo != {}
      invariant todo !! done && todo + done == lists.Keys
      invariant byPlatform.Keys == done
      invariant forall k | k in done :: multiset(byPlatform[k]) == multiset(Filtered(recs, PlatformOf(), k))
      invariant multiset(flat) == multiset(KeepKeys(recs, done)) && groups == Grouped(flat, GroupOf())
    {
      var k :| k in todo;
      BucketIsFiltered(recs, PlatformOf(), k);
      KeepOneMore(recs, done, k);
      assert lists[k] == Filtered(recs, PlatformOf(), k);
      var items := Sort(lists[k], ScheduleOrder());
      byPlatform := byPlatform[k := items];
      groups := AddGroups(groups, items, flat);
      assert multiset(flat + items) == multiset(flat) + multiset(items);
      flat := flat + items;
      todo := todo - {k};
      done := done + {k};
    }
    KeyIsGrouped(recs);
    KeepAll(recs, done);
  }

  lemma NoGroups()
    ensures Grouped<GroupKey, Record>([], GroupOf()) == map[]
  {
  }

  method AddGroups(groups0: map<GroupKey, seq<Record>>, items: seq<Record>, ghost flat: seq<Record>)
      returns (groups: map<GroupKey, seq<Record>>)
    requires groups0 == Grouped(flat, GroupOf())
    ensures groups == Grouped(flat + items, GroupOf())
  {
    hide Grouped, Append;
    groups := groups0;
    assert flat + items[..0] == flat;
    for i := 0 to |items|
      invariant groups == Grouped(flat + items[..i], GroupOf())
    {
      assert flat + items[..i + 1] == (flat + items[..i]) + [items[i]];
      GroupedSnoc(flat + items[..i], items[i], GroupOf());
      groups := Append(groups, (items[i].PrintedKey(), items[i].Scheduled()), items[i]);
    }
    assert items[..|items|] == items;
  }

  // ----- the groups, independent of any order -----

  function Members(recs: seq<Record>, g: GroupKey): seq<Record> {
    Filtered(recs, GroupOf(), g)
  }

  function Items(recs: seq<Record>, g: GroupKey): seq<Record> {
    Filtered(recs, PlatformOf(), g.0)
  }

  function Groups(recs: seq<Record>): set<GroupKey> {
    set r | r in recs :: GroupOf()(r)
  }

  /** The groups that put any service time on their platform; the others are skipped. */
  function BusyGroups(recs: seq<Record>): set<GroupKey> {
    set g | g in Groups(recs) && Sum(Members(recs, g), Service()) > 0.0
  }

  function InflictedBy(recs: seq<Record>): GroupKey -> real {
    (g: GroupKey) => Inflicted(Members(recs, g), Items(recs, g), g.1)
  }

  function PredictedFor(recs: seq<Record>): GroupKey -> real {
    (g: GroupKey) => Predicted(Members(recs, g), Items(recs, g), g.1)
  }

  /** The realized waiting of all groups together. */
  ghost function Realized(recs: seq<Record>): real {
    SetSum(BusyGroups(recs), InflictedBy(recs))
  }

  lemma FilteredPermutation(s: seq<Record>, t: seq<Record>, g: GroupKey)
    requires multiset(s) == multiset(t)
    ensures multiset(Members(s, g)) == multiset(Members(t, g))
  {
    forall x
      ensures multiset(Members(s, g))[x] == multiset(Members(t, g))[x]
    {
      FilteredMultiset(s, GroupOf(), g, x);
      FilteredMultiset(t, GroupOf(), g, x);
    }
  }

  lemma HasIdPermutation(a: seq<Record>, b: seq<Record>, id: int)
    requires multiset(a) == multiset(b) && HasId(a, id)
    ensures HasId(b, id)
  {
    var i :| 0 <= i < |a| && a[i].taskId == id;
    assert a[i] in multiset(b);
    assert a[i] in b;
  }

  lemma BehindnessPermutation(m: seq<Record>, m': seq<Record>, t: real, o: Record)
    requires multiset(m) == multiset(m')
    ensures Behindness(m, t)(o) == Behindness(m', t)(o)
  {
    SumPermutation(m, m', Row(Flip(Wait), o));
    if HasId(m, o.taskId) {
      HasIdPermutation(m, m', o.taskId);
    }
    if HasId(m', o.taskId) {
      HasIdPermutation(m', m, o.taskId);
    }
  }

  /** Predicted and realized waiting do not depend on the order of the lists. */
  lemma GroupPermutation(m: seq<Record>, m': seq<Record>, items: seq<Record>, items': seq<Record>, t: real)
    requires multiset(m) == multiset(m') && multiset(items) == multiset(items')
    ensures Sum(m, Service()) == Sum(m', Service())
    ensures Predicted(m, items, t) == Predicted(m', items', t)
    ensures Inflicted(m, items, t) == Inflicted(m', items', t)
  {
    hide Behindness, Gain;
    SumPermutation(m, m', Service());
    SumPermutation(items, items', Remaining(t));
    forall o
      ensures Behindness(m, t)(o) == Behindness(m', t)(o)
    {
      BehindnessPermutation(m, m', t, o);
    }
    SumPermutation(items, items', Behindness(m', t));
    SumCongruent(items, Behindness(m, t), Behindness(m', t));
  }

  // ----- the main loops -----

  method BacklogOf(items: seq<Record>, t: real) returns (backlog: real)
    ensures backlog == Sum(items, Remaining(t))
  {
    backlog := 0.0;
    for i := 0 to |items|
      invariant backlog == Sum(items[..i], Remaining(t))
    {
      var other := items[i];
      assert items[..i + 1] == items[..i] + [other];
      SumSnoc(items[..i], other, Remaining(t));
      if other.Scheduled() >= t {
        continue;
      }
      if other.done <= t {
        continue;
      }
      backlog := backlog + (other.done - if other.arrived < t then t else other.arrived);
    }
    assert items[..|items|] == items;
  }

  method WaitBehind(members: seq<Record>, other: Record) returns (wait: real)
    ensures wait == Sum(members, Row(Flip(Wait), other))
  {
    wait := 0.0;
    for i := 0 to |members|
      invariant wait == Sum(members[..i], Row(Flip(Wait), other))
    {
      var m := members[i];
      assert members[..i + 1] == members[..i] + [m];
      SumSnoc(members[..i], m, Row(Flip(Wait), other));
      var lo := if other.Scheduled() < m.arrived then m.arrived else other.Scheduled();
      var hi := if m.done < other.arrived then m.done else other.arrived;
      assert Row(Flip(Wait), other)(m) == Wait(m, other) == if hi > lo then hi - lo else 0.0;
      if hi > lo {
        wait := wait + (hi - lo);
      }
    }
    assert members[..|members|] == members;
  }

  method InflictedOf(members: seq<Record>, items: seq<Record>, t: real) returns (inflicted: real)
    ensures inflicted == Inflicted(members, items, t)
  {
    inflicted := 0.0;
    for i := 0 to |items|
      invariant inflicted == Sum(items[..i], Behindness(members, t))
    {
      var other := items[i];
      assert items[..i + 1] == items[..i] + [other];
      SumSnoc(items[..i], other, Behindness(members, t));
      if HasId(members, other.taskId) {
        continue;
      }
      if other.Scheduled() <= t {
        continue;
      }
      if other.arrived <= other.Scheduled() {
        continue;
      }
      var wait := WaitBehind(members, other);
      inflicted := inflicted + wait;
    }
    assert items[..|items|] == items;
  }

  lemma {:induction false} GroupKeys(recs: seq<Record>)
    ensures Grouped(recs, GroupOf()).Keys == Groups(recs)
    ensures forall r | r in recs :: r.PrintedKey() in Grouped(recs, PlatformOf())
  {
    KeyIsGrouped(recs);
    if recs != [] {
      GroupKeys(recs[..|recs| - 1]);
      assert recs == recs[..|recs| - 1] + [recs[|recs| - 1]];
      assert forall r :: r in recs <==> r in recs[..|recs| - 1] || r == recs[|recs| - 1];
    }
  }

  /** What BuildGroups hands over for one group. */
  lemma GroupLists(recs: seq<Record>, byPlatform: map<string, seq<Record>>, flat: seq<Record>, g: GroupKey)
    requires byPlatform.Keys == Grouped(recs, PlatformOf()).Keys
    requires forall k | k in byPlatform :: multiset(byPlatform[k]) == multiset(Filtered(recs, PlatformOf(), k))
    requires multiset(flat) == multiset(recs) && g in Grouped(flat, GroupOf())
    ensures g in Groups(recs) && g.0 in byPlatform
    ensures multiset(Grouped(flat, GroupOf())[g]) == multiset(Members(recs, g))
    ensures multiset(byPlatform[g.0]) == multiset(Items(recs, g))
  {
    GroupKeys(flat);
    GroupKeys(recs);
    var r :| r in flat && GroupOf()(r) == g;
    assert r in multiset(recs) && r in recs;
    BucketIsFiltered(flat, GroupOf(), g);
    FilteredPermutation(flat, recs, g);
  }

  lemma SameGroups(recs: seq<Record>, flat: seq<Record>)
    requires multiset(flat) == multiset(recs)
    ensures Grouped(flat, GroupOf()).Keys == Groups(recs)
  {
    GroupKeys(flat);
    assert forall r :: r in flat <==> r in multiset(flat);
    assert forall r :: r in recs <==> r in multiset(recs);
  }

  method GroupReading(members: seq<Record>, items: seq<Record>, t: real)
      returns (predicted: real, realized: real)
    ensures predicted == Predicted(members, items, t) && realized == Inflicted(members, items, t)
  {
    var added := Sum(members, Service());
    var backlog := BacklogOf(items, t);
    realized := InflictedOf(members, items, t);
    predicted := Gain(backlog, added);
  }

  /** The lists report exactly the busy groups among those done, each with its own two values. */
  ghost predicate Reported(recs: seq<Record>, predicted: seq<real>, realized: seq<real>, order: seq<GroupKey>,
                           done: set<GroupKey>)
  {
    && |predicted| == |realized| == |order|
    && (forall i, j | 0 <= i < j < |order| :: order[i] != order[j])
    && (forall g :: g in order <==> g in BusyGroups(recs) && g in done)
    && (forall i | 0 <= i < |order| ::
          predicted[i] == PredictedFor(recs)(order[i]) && realized[i] == InflictedBy(recs)(order[i]))
    && Sum(realized, Self()) == SetSum(done * BusyGroups(recs), InflictedBy(recs))
  }

  lemma ReportedBusy(recs: seq<Record>, predicted: seq<real>, realized: seq<real>, order: seq<GroupKey>,
                     done: set<GroupKey>, g: GroupKey)
    requires Reported(recs, predicted, realized, order, done) && g !in done && g in BusyGroups(recs)
    ensures var p, r := PredictedFor(recs)(g), InflictedBy(recs)(g);
      Reported(recs, predicted + [p], realized + [r], order + [g], done + {g})
  {
    hide BusyGroups, PredictedFor, InflictedBy;
    SetSumAdd(done * BusyGroups(recs), g, InflictedBy(recs));
    SumSnoc(realized, InflictedBy(recs)(g), Self());
    assert (done + {g}) * BusyGroups(recs) == done * BusyGroups(recs) + {g};
  }

  lemma ReportedIdle(recs: seq<Record>, predicted: seq<real>, realized: seq<real>, order: seq<GroupKey>,
                     done: set<GroupKey>, g: GroupKey)
    requires Reported(recs, predicted, realized, order, done) && g !in BusyGroups(recs)
    ensures Reported(recs, predicted, realized, order, done + {g})
  {
    hide BusyGroups, PredictedFor, InflictedBy;
    assert (done + {g}) * BusyGroups(recs) == done * BusyGroups(recs);
  }

  /** The groups that inflicted nothing. */
  function ZeroCount(realized: seq<real>): nat {
    if realized == [] then 0
    else ZeroCount(realized[..|realized| - 1]) + if realized[|realized| - 1] <= 0.0 then 1 else 0
  }

  /** One predicted and one realized value for every busy commit group, in some order, and how many are zero. */
  method GroupReadings(recs: seq<Record>)
      returns (predicted: seq<real>, realized: seq<real>, order: seq<GroupKey>, nZero: nat)
    ensures |predicted| == |realized| == |order|
    ensures forall i, j | 0 <= i < j < |order| :: order[i] != order[j]
    ensures forall g :: g in order <==> g in Groups(recs) && Sum(Members(recs, g), Service()) > 0.0
    ensures forall g :: g in order <==> g in BusyGroups(recs)
    ensures forall i | 0 <= i < |order| ::
      predicted[i] == PredictedFor(recs)(order[i]) && realized[i] == InflictedBy(recs)(order[i])
    ensures Sum(realized, Self()) == Realized(recs) && nZero == ZeroCount(realized)
  {
    hide Reported, Grouped, Groups, BusyGroups, InflictedBy, PredictedFor, Realized, Members, Items;
    var byPlatform, groups, flat := BuildGroups(recs);
    SameGroups(recs, flat);
    predicted, realized, order, nZero := [], [], [], 0;
    var todo := groups.Keys;
    ghost var done: set<GroupKey> := {};
    ReportedNone(recs);
    while todo != {}
      invariant todo !! done && todo + done == groups.Keys
      invariant Reported(recs, predicted, realized, order, done) && nZero == ZeroCount(realized)
    {
      var g :| g in todo;
      GroupLists(recs, byPlatform, flat, g);
      predicted, realized, order, nZero :=
        Report(recs, predicted, realized, order, nZero, done, g, groups[g], byPlatform[g.0]);
      todo := todo - {g};
      done := done + {g};
    }
    ReportedAll(recs, predicted, realized, order, done);
    BusyIs(recs);
  }

  lemma BusyIs(recs: seq<Record>)
    ensures forall g :: g in BusyGroups(recs) <==> g in Groups(recs) && Sum(Members(recs, g), Service()) > 0.0
  {
    hide Members, Sum, Groups;
  }

  lemma ReportedNone(recs: seq<Record>)
    ensures Reported(recs, [], [], [], {})
  {
    var none: set<GroupKey> := {};
    assert none * BusyGroups(recs) == {};
  }

  lemma ReportedAll(recs: seq<Record>, predicted: seq<real>, realized: seq<real>, order: seq<GroupKey>,
                    done: set<GroupKey>)
    requires Reported(recs, predicted, realized, order, done) && done == Groups(recs)
    ensures |predicted| == |realized| == |order|
    ensures forall i, j | 0 <= i < j < |order| :: order[i] != order[j]
    ensures forall g :: g in order <==> g in BusyGroups(recs)
    ensures forall i | 0 <= i < |order| ::
      predicted[i] == PredictedFor(recs)(order[i]) && realized[i] == InflictedBy(recs)(order[i])
    ensures Sum(realized, Self()) == Realized(recs)
  {
    hide InflictedBy, PredictedFor, Sum;
    assert done * BusyGroups(recs) == BusyGroups(recs);
  }

  /** One turn of the group loop. */
  method Report(ghost recs: seq<Record>, predicted: seq<real>, realized: seq<real>, order: seq<GroupKey>, nZero: nat,
                ghost done: set<GroupKey>, g: GroupKey, members: seq<Record>, items: seq<Record>)
      returns (predicted': seq<real>, realized': seq<real>, order': seq<GroupKey>, nZero': nat)
    requires nZero == ZeroCount(realized)
    requires Reported(recs, predicted, realized, order, done) && g !in done && g in Groups(recs)
    requires multiset(members) == multiset(Members(recs, g)) && multiset(items) == multiset(Items(recs, g))
    ensures Reported(recs, predicted', realized', order', done + {g}) && nZero' == ZeroCount(realized')
  {
    hide Reported, Members, Items, Predicted, Inflicted, Groups, Gain, Sum;
    GroupPermutation(members, Members(recs, g), items, Items(recs, g), g.1);
    if Sum(members, Service()) > 0.0 {
      var p, r := GroupReading(members, items, g.1);
      ReportedBusy(recs, predicted, realized, order, done, g);
      predicted', realized', order' := predicted + [p], realized + [r], order + [g];
      nZero' := if r <= 0.0 then nZero + 1 else nZero;
    } else {
      ReportedIdle(recs, predicted, realized, order, done, g);
      predicted', realized', order', nZero' := predicted, realized, order, nZero;
    }
  }

  // ----- the two accountings -----

  /** Behind an earlier commit of the platform, as this read names platforms. */
  function CommitPair(p: Record, r: Record): real {
    if p.PrintedKey() == r.PrintedKey() && p.Scheduled() < r.Scheduled() then Wait(p, r) else 0.0
  }

  /** Of that, what the per-task read leaves out: it skips records that do not name both a node and a platform. */
  function UnplacedPair(p: Record, r: Record): real {
    if !SameKey(p, r) then CommitPair(p, r) else 0.0
  }

  /** And what this read leaves out: groups without service, and tasks whose id also occurs in the group. */
  predicate Skips(recs: seq<Record>, g: GroupKey, r: Record) {
    g !in BusyGroups(recs) || HasId(Members(recs, g), r.taskId)
  }

  function SkippedPair(recs: seq<Record>): (Record, Record) -> real {
    (p: Record, r: Record) => if Skips(recs, GroupOf()(p), r) then CommitPair(p, r) else 0.0
  }

  function CountedPair(recs: seq<Record>): (Record, Record) -> real {
    (p: Record, r: Record) => if Skips(recs, GroupOf()(p), r) then 0.0 else CommitPair(p, r)
  }

  lemma CountedOrNot(recs: seq<Record>, m: Record, o: Record)
    requires m.PrintedKey() == o.PrintedKey()
    ensures Row(Flip(CountedPair(recs)), o)(m)
         == if Skips(recs, GroupOf()(m), o) || o.Scheduled() <= m.Scheduled() then 0.0 else Row(Flip(Wait), o)(m)
    ensures o.arrived <= o.Scheduled() ==> Row(Flip(Wait), o)(m) == 0.0
  {
    assert Row(Flip(CountedPair(recs)), o)(m) == CountedPair(recs)(m, o);
    assert Row(Flip(Wait), o)(m) == Wait(m, o);
  }

  /** The waiting of one later task behind the group's members, read off those members. */
  lemma BehindnessIsCounted(recs: seq<Record>, g: GroupKey, o: Record)
    requires g in BusyGroups(recs) && o in Items(recs, g)
    ensures Behindness(Members(recs, g), g.1)(o) == Sum(Members(recs, g), Row(Flip(CountedPair(recs)), o))
  {
    var members := Members(recs, g);
    FilteredHaveKey(recs, GroupOf(), g);
    FilteredHaveKey(recs, PlatformOf(), g.0);
    hide BusyGroups;
    forall m | m in members
      ensures Row(Flip(CountedPair(recs)), o)(m)
           == if HasId(members, o.taskId) || o.Scheduled() <= g.1 then 0.0 else Row(Flip(Wait), o)(m)
      ensures o.arrived <= o.Scheduled() ==> Row(Flip(Wait), o)(m) == 0.0
    {
      CountedOrNot(recs, m, o);
    }
    hide CountedPair, Wait, HasId;
    if o.Scheduled() > g.1 && o.arrived > o.Scheduled() && !HasId(members, o.taskId) {
      SumCongruent(members, Row(Flip(Wait), o), Row(Flip(CountedPair(recs)), o));
    } else {
      SumConstant(members, Row(Flip(CountedPair(recs)), o), 0.0);
    }
  }

  lemma CountedOnPlatform(recs: seq<Record>, m: Record, o: Record)
    ensures Row(CountedPair(recs), m)(o) == CountedPair(recs)(m, o)
    ensures m.PrintedKey() != o.PrintedKey() ==> CountedPair(recs)(m, o) == 0.0
  {
    hide BusyGroups, HasId, Members;
    if m.PrintedKey() != o.PrintedKey() {
      assert CommitPair(m, o) == 0.0;
    }
  }

  lemma OtherPlatformNothing(recs: seq<Record>, m: Record, o: Record)
    ensures OnlyKey(PlatformOf(), m.PrintedKey(), Row(CountedPair(recs), m))(o) == Row(CountedPair(recs), m)(o)
  {
    CountedOnPlatform(recs, m, o);
    hide CountedPair;
  }

  /** What a member makes the tasks of its platform wait is what it makes any task wait. */
  lemma CountedOnOwnPlatform(recs: seq<Record>, m: Record)
    requires m in recs
    ensures Sum(Filtered(recs, PlatformOf(), m.PrintedKey()), Row(CountedPair(recs), m))
         == RowSum(CountedPair(recs), recs)(m)
  {
    var k := m.PrintedKey();
    FilteredSum(recs, PlatformOf(), k, Row(CountedPair(recs), m));
    forall o | o in recs
      ensures OnlyKey(PlatformOf(), k, Row(CountedPair(recs), m))(o) == Row(CountedPair(recs), m)(o)
    {
      OtherPlatformNothing(recs, m, o);
    }
    hide CountedPair;
    SumCongruent(recs, OnlyKey(PlatformOf(), k, Row(CountedPair(recs), m)), Row(CountedPair(recs), m));
  }

  /** A group with service inflicts exactly the waiting counted for its members. */
  lemma InflictedIsCounted(recs: seq<Record>, g: GroupKey)
    requires g in BusyGroups(recs)
    ensures InflictedBy(recs)(g) == Sum(Members(recs, g), RowSum(CountedPair(recs), recs))
  {
    hide Behindness, CountedPair, BusyGroups;
    var members, items := Members(recs, g), Items(recs, g);
    var counted := CountedPair(recs);
    forall o | o in items
      ensures Behindness(members, g.1)(o) == RowSum(Flip(counted), members)(o)
    {
      BehindnessIsCounted(recs, g, o);
    }
    SumCongruent(items, Behindness(members, g.1), RowSum(Flip(counted), members));
    DoubleSumSwap(members, items, counted);
    FilteredHaveKey(recs, GroupOf(), g);
    forall m | m in members
      ensures RowSum(counted, items)(m) == RowSum(counted, recs)(m)
    {
      CountedOnOwnPlatform(recs, m);
    }
    SumCongruent(members, RowSum(counted, items), RowSum(counted, recs));
  }

  /** For a skipped group nothing is counted. */
  lemma IdleCountsNothing(recs: seq<Record>, g: GroupKey)
    requires g !in BusyGroups(recs)
    ensures Sum(Members(recs, g), RowSum(CountedPair(recs), recs)) == 0.0
  {
    FilteredHaveKey(recs, GroupOf(), g);
    forall m | m in Members(recs, g)
      ensures RowSum(CountedPair(recs), recs)(m) == 0.0
    {
      SumConstant(recs, Row(CountedPair(recs), m), 0.0);
    }
    hide RowSum, CountedPair, Members;
    SumConstant(Members(recs, g), RowSum(CountedPair(recs), recs), 0.0);
  }

  /** For any records: what all groups inflict, together with what is skipped, is all the waiting behind earlier
      commits. */
  lemma RealizedIsCounted(recs: seq<Record>)
    ensures Realized(recs) == DoubleSum(recs, recs, CountedPair(recs))
    ensures Realized(recs) + DoubleSum(recs, recs, SkippedPair(recs)) == DoubleSum(recs, recs, CommitPair)
  {
    DoubleSumPlus(recs, recs, CommitPair, CountedPair(recs), SkippedPair(recs));
    var groups, f := Grouped(recs, GroupOf()), RowSum(CountedPair(recs), recs);
    GroupingKeepsSum(recs, GroupOf(), f);
    GroupKeys(recs);
    assert BusyGroups(recs) <= groups.Keys;
    hide BusyGroups, CountedPair, SkippedPair, InflictedBy;
    forall g | g in groups
      ensures BucketSum(groups, f)(g) == if g in BusyGroups(recs) then InflictedBy(recs)(g) else 0.0
    {
      BucketIsFiltered(recs, GroupOf(), g);
      if g in BusyGroups(recs) {
        InflictedIsCounted(recs, g);
      } else {
        IdleCountsNothing(recs, g);
      }
    }
    SetSumCongruent(BusyGroups(recs), BucketSum(groups, f), InflictedBy(recs));
    SetSumPad(BusyGroups(recs), groups.Keys, BucketSum(groups, f));
  }

  lemma CommittedSplits(recs: seq<Record>)
    ensures DoubleSum(recs, recs, CommitPair)
         == DoubleSum(recs, recs, EarlierPair) + DoubleSum(recs, recs, UnplacedPair)
  {
    forall p, r | p in recs && r in recs
      ensures CommitPair(p, r) == EarlierPair(p, r) + UnplacedPair(p, r)
    {
      assert SameKey(p, r) ==> p.PrintedKey() == r.PrintedKey();
    }
    DoubleSumPlus(recs, recs, CommitPair, EarlierPair, UnplacedPair);
  }

  /** The two accountings of waiting, for any records. The commit groups alone count what waits behind records without a
      platform and what the scans miss behind other commits; the scans alone count what waits behind records that were
      never scheduled, what waits behind later commits, and what the groups skip. */
  lemma AccountingsDiffer(recs: seq<Record>)
    ensures Realized(recs) - (Behind(recs, Any) - Behind(recs, Batch))
         == DoubleSum(recs, recs, UnplacedPair) + MissedBehind(recs, Other)
          - DoubleSum(recs, recs, UnscheduledPair) - DoubleSum(recs, recs, LaterPair)
          - DoubleSum(recs, recs, SkippedPair(recs))
  {
    RealizedIsCounted(recs);
    CommittedSplits(recs);
    BehindOther(recs);
    ScansAndMissed(recs, Other);
    WaitingSplits(recs);
  }

  ghost predicate Agree(recs: seq<Record>) {
    Realized(recs) == Behind(recs, Any) - Behind(recs, Batch)
  }

  /** Nothing that only the commit groups count. */
  ghost predicate ScansComplete(recs: seq<Record>) {
    NothingMissed(recs, Other) && NoneWait(recs, UnplacedPair)
  }

  /** Nothing that only the scans count. */
  ghost predicate GroupsComplete(recs: seq<Record>) {
    NoneWait(recs, UnscheduledPair) && NoneWait(recs, LaterPair) && NoneWait(recs, SkippedPair(recs))
  }

  /** So they agree exactly when these amounts balance; where one side counts everything, exactly when the other does
      too. */
  lemma AccountingsAgree(recs: seq<Record>)
    ensures var unplaced, missed := DoubleSum(recs, recs, UnplacedPair), MissedBehind(recs, Other);
      var unscheduled, later := DoubleSum(recs, recs, UnscheduledPair), DoubleSum(recs, recs, LaterPair);
      Agree(recs) <==> unplaced + missed == unscheduled + later + DoubleSum(recs, recs, SkippedPair(recs))
    ensures ScansComplete(recs) ==> (Agree(recs) <==> GroupsComplete(recs))
    ensures GroupsComplete(recs) ==> (Agree(recs) <==> ScansComplete(recs))
  {
    AccountingsDiffer(recs);
    MissedBehindSign(recs, Other);
    PairsNonNegative(recs);
    hide DoubleSum, UnscheduledPair, UnplacedPair, LaterPair, SkippedPair, Realized, Behind, MissedBehind;
    hide NothingMissed, NoneWait;
    NonePaired(recs, UnscheduledPair);
    NonePaired(recs, LaterPair);
    NonePaired(recs, SkippedPair(recs));
    NonePaired(recs, UnplacedPair);
  }

  lemma PairsNonNegative(recs: seq<Record>)
    ensures forall p, r :: UnscheduledPair(p, r) >= 0.0 && UnplacedPair(p, r) >= 0.0 && LaterPair(p, r) >= 0.0
    ensures forall p, r :: SkippedPair(recs)(p, r) >= 0.0
  {
    hide Skips;
    forall p, r
      ensures SkippedPair(recs)(p, r) >= 0.0
    {
      assert CommitPair(p, r) >= 0.0;
    }
  }

  lemma NonePaired(recs: seq<Record>, pair: (Record, Record) -> real)
    requires forall p, r :: pair(p, r) >= 0.0
    ensures DoubleSum(recs, recs, pair) >= 0.0
    ensures DoubleSum(recs, recs, pair) == 0.0 <==> NoneWait(recs, pair)
  {
    forall p | p in recs
      ensures RowSum(pair, recs)(p) >= 0.0
      ensures RowSum(pair, recs)(p) == 0.0 <==> forall r | r in recs :: pair(p, r) == 0.0
    {
      SumNonNegative(recs, Row(pair, p));
      assert forall r :: Row(pair, p)(r) == pair(p, r);
    }
    SumNonNegative(recs, RowSum(pair, recs));
  }

  // ----- what the predicted backlog means -----

  /** What o does to a task r of a later commit is at most what remains of o at that commit, and all of it if o is done
      when r starts. */
  lemma RemainingCoversWait(o: Record, r: Record)
    requires o.PrintedKey() == r.PrintedKey() && o.arrived <= o.done
    ensures 0.0 <= CommitPair(o, r) <= Remaining(r.Scheduled())(o)
    ensures CommitPair(o, r) == Remaining(r.Scheduled())(o)
      <==> (o.Scheduled() < r.Scheduled() && r.Scheduled() < o.done && o.arrived < o.done ==> o.done <= r.arrived)
  {
  }

  function CommitSlack(r: Record): Record -> real {
    (o: Record) => Remaining(r.Scheduled())(o) - CommitPair(o, r)
  }

  /** The backlog at a commit is at least what any task of it then waits behind earlier commits, and exactly that
      when all unfinished earlier work is done before the task starts, as on a first-come serial platform. */
  lemma BacklogCoversWait(recs: seq<Record>, r: Record)
    requires forall o | o in recs :: o.arrived <= o.done
    ensures var items, t := Items(recs, GroupOf()(r)), r.Scheduled();
      var backlog, wait := Sum(items, Remaining(t)), Sum(items, Row(Flip(CommitPair), r));
      && wait <= backlog
      && (wait == backlog
          <==> forall o | o in items && o.Scheduled() < t && t < o.done && o.arrived < o.done :: o.done <= r.arrived)
  {
    var items, t := Items(recs, GroupOf()(r)), r.Scheduled();
    FilteredHaveKey(recs, PlatformOf(), r.PrintedKey());
    forall o | o in items
      ensures CommitSlack(r)(o) >= 0.0
      ensures CommitSlack(r)(o) == 0.0
        <==> (o.Scheduled() < t && t < o.done && o.arrived < o.done ==> o.done <= r.arrived)
      ensures Remaining(t)(o) == CommitSlack(r)(o) + Row(Flip(CommitPair), r)(o)
    {
      RemainingCoversWait(o, r);
      assert Row(Flip(CommitPair), r)(o) == CommitPair(o, r);
    }
    hide CommitPair, Remaining, CommitSlack, Items;
    SumPlus(items, Remaining(t), CommitSlack(r), Row(Flip(CommitPair), r));
    SumNonNegative(items, CommitSlack(r));
  }

  /** A task committed at 0 and busy until 10, and one committed at 4 and busy from 10 to 12: the second group stands
      behind 6 seconds of backlog and is predicted to inflict 14. */
  lemma PredictionExample()
    ensures var node, plat := Some("n"), Some("0");
      var first := Record(1, node, plat, Some(0.0), 0.0, 10.0, 0.0);
      var second := Record(2, node, plat, Some(4.0), 10.0, 12.0, 6.0);
      && Sum([first, second], Remaining(4.0)) == 6.0 && Predicted([second], [first, second], 4.0) == 14.0
      && CommitPair(first, second) == 6.0
  {
    var node, plat := Some("n"), Some("0");
    var first := Record(1, node, plat, Some(0.0), 0.0, 10.0, 0.0);
    var second := Record(2, node, plat, Some(4.0), 10.0, 12.0, 6.0);
    var rest := [second];
    assert [first, second][1..] == rest && rest[1..] == [];
    assert Remaining(4.0)(second) == 0.0 && Remaining(4.0)(first) == 6.0 && Service()(second) == 2.0;
    assert Sum(rest[1..], Remaining(4.0)) == 0.0 && Sum(rest[1..], Service()) == 0.0;
    assert Sum(rest, Remaining(4.0)) == 0.0 && Sum(rest, Service()) == 2.0;
    assert Sum([first, second], Remaining(4.0)) == 6.0;
  }

  // ----- records on which nothing is left out -----

  /** Records that all have a schedule time, a node and a platform meet the two conditions on these. */
  lemma PlacedAndScheduled(recs: seq<Record>)
    ensures (forall r | r in recs :: r.scheduled.Some?) ==> NoneWait(recs, UnscheduledPair)
    ensures (forall r | r in recs :: r.Key().Some?) ==> NoneWait(recs, UnplacedPair)
  {
    forall p, r | p in recs && r in recs
      ensures p.scheduled.Some? ==> UnscheduledPair(p, r) == 0.0
      ensures p.Key().Some? && r.Key().Some? ==> UnplacedPair(p, r) == 0.0
    {
    }
  }

  /** No negative service, and ids that tell the commits of a platform apart. */
  ghost predicate WellFormed(recs: seq<Record>) {
    && (forall r | r in recs :: r.arrived <= r.done)
    && (forall p, r | p in recs && r in recs && p.PrintedKey() == r.PrintedKey() && p.Scheduled() != r.Scheduled() ::
          p.taskId != r.taskId)
  }

  lemma IdleMember(recs: seq<Record>, p: Record)
    requires p in recs && GroupOf()(p) !in BusyGroups(recs) && forall r | r in recs :: r.arrived <= r.done
    ensures p.arrived == p.done
  {
    var g := GroupOf()(p);
    var members := Members(recs, g);
    FilteredHaveKey(recs, GroupOf(), g);
    FilteredMultiset(recs, GroupOf(), g, p);
    assert p in multiset(members);
    SumNonNegative(members, Service());
    assert g in Groups(recs);
    assert Service()(p) == 0.0;
  }

  lemma WellFormedSkipsNothing(recs: seq<Record>)
    requires WellFormed(recs)
    ensures NoneWait(recs, SkippedPair(recs))
  {
    forall p, r | p in recs && r in recs
      ensures SkippedPair(recs)(p, r) == 0.0
    {
      var g := GroupOf()(p);
      hide BusyGroups;
      if g !in BusyGroups(recs) {
        IdleMember(recs, p);
      } else if HasId(Members(recs, g), r.taskId) {
        FilteredHaveKey(recs, GroupOf(), g);
        var i :| 0 <= i < |Members(recs, g)| && Members(recs, g)[i].taskId == r.taskId;
        assert Members(recs, g)[i] in Members(recs, g);
      }
    }
  }

  // ----- one instance for each amount -----

  /** Two tasks, served one after the other from 0 to 5 and from 5 to 6. */
  function TwoTasks(plat: Option<string>, id: int, s0: Option<real>, s1: Option<real>): (r: seq<Record>)
    ensures |r| == 2
  {
    [Record(1, Some("n"), plat, s0, 0.0, 5.0, 0.0), Record(id, Some("n"), plat, s1, 5.0, 6.0, 5.0)]
  }

  lemma TwoScansComplete(id: int, s0: Option<real>, s1: Option<real>)
    ensures var recs := TwoTasks(Some("0"), id, s0, s1);
      ScansComplete(recs) && recs[0].Key() == recs[1].Key() == Some("n:0")
  {
    var recs := TwoTasks(Some("0"), id, s0, s1);
    assert "n" + ":" + "0" == "n:0";
    assert recs[0].Key() == recs[1].Key() == Some("n:0");
    TwoInOrder(recs);
    hide TwoTasks, Record.Key, UnplacedPair, NothingMissed, NoneWait, CompletesInOrder;
    InOrderNothingMissed(recs, Other);
    assert forall r | r in recs :: r == recs[0] || r == recs[1];
    PlacedAndScheduled(recs);
  }

  lemma TwoInOrder(recs: seq<Record>)
    requires |recs| == 2 && recs[0].Key() == recs[1].Key() == Some("n:0")
    requires recs[0].arrived <= recs[1].arrived && recs[0].done <= recs[1].done
    ensures CompletesInOrder(recs)
  {
    hide Record.Key, ServedOn;
    OneKey(recs, Some("n:0"));
  }

  lemma Waits(recs: seq<Record>, pair: (Record, Record) -> real)
    requires |recs| == 2 && pair(recs[0], recs[1]) != 0.0
    ensures !NoneWait(recs, pair)
  {
    assert recs[0] in recs && recs[1] in recs;
  }

  /** Without schedule times 5 seconds are waited behind a record that was never scheduled. */
  lemma UnscheduledDiffer()
    ensures var recs := TwoTasks(Some("0"), 2, None, None);
      !Agree(recs) && UnscheduledPair(recs[0], recs[1]) == 5.0
  {
    var recs := TwoTasks(Some("0"), 2, None, None);
    TwoScansComplete(2, None, None);
    Waits(recs, UnscheduledPair);
    hide ScansComplete, NoneWait, Agree, TwoTasks;
    AccountingsAgree(recs);
  }

  /** Committed at 1 and at 0 but served in this order, the second waits 5 seconds behind a later commit. */
  lemma LaterDiffer()
    ensures var recs := TwoTasks(Some("0"), 2, Some(1.0), Some(0.0));
      !Agree(recs) && LaterPair(recs[0], recs[1]) == 5.0
  {
    var recs := TwoTasks(Some("0"), 2, Some(1.0), Some(0.0));
    TwoScansComplete(2, Some(1.0), Some(0.0));
    Waits(recs, LaterPair);
    hide ScansComplete, NoneWait, Agree, TwoTasks;
    AccountingsAgree(recs);
  }

  /** With one id for both, committed at 0 and at 1, the groups skip 4 seconds. */
  lemma SharedIdDiffers()
    ensures var recs := TwoTasks(Some("0"), 1, Some(0.0), Some(1.0));
      !Agree(recs) && SkippedPair(recs)(recs[0], recs[1]) == 4.0
  {
    var recs := TwoTasks(Some("0"), 1, Some(0.0), Some(1.0));
    TwoScansComplete(1, Some(0.0), Some(1.0));
    var members := Members(recs, GroupOf()(recs[0]));
    FilteredMultiset(recs, GroupOf(), GroupOf()(recs[0]), recs[0]);
    assert recs[0] in recs && recs[0] in multiset(members) && recs[0] in members;
    var i :| 0 <= i < |members| && members[i] == recs[0];
    assert CommitPair(recs[0], recs[1]) == 4.0;
    assert Skips(recs, GroupOf()(recs[0]), recs[1]);
    Waits(recs, SkippedPair(recs));
    hide ScansComplete, NoneWait, Agree, TwoTasks, SkippedPair;
    AccountingsAgree(recs);
  }

  /** Without a platform, 4 seconds are waited behind a record that only the groups see. */
  lemma UnplacedDiffer()
    ensures var recs := TwoTasks(None, 2, Some(0.0), Some(1.0));
      !Agree(recs) && UnplacedPair(recs[0], recs[1]) == 4.0
  {
    var recs := TwoTasks(None, 2, Some(0.0), Some(1.0));
    assert GroupsComplete(recs) by {
      WellFormedSkipsNothing(recs);
    }
    Waits(recs, UnplacedPair);
    hide GroupsComplete, NoneWait, Agree, TwoTasks;
    AccountingsAgree(recs);
  }

  /** And the records for which the early stop loses 4 seconds. */
  lemma MissedDiffer()
    ensures !Agree(LossyRecords()) && !NothingMissed(LossyRecords(), Other)
  {
    var recs := LossyRecords();
    LossyMissed();
    assert GroupsComplete(recs) by {
      LossyWellFormed();
      WellFormedSkipsNothing(recs);
      FirstComeNoneLater(recs);
      PlacedAndScheduled(recs);
    }
    hide GroupsComplete, NoneWait, Agree, LossyRecords, NothingMissed;
    AccountingsAgree(recs);
  }

  lemma LossyWellFormed()
    ensures WellFormed(LossyRecords()) && FirstCome(LossyRecords())
    ensures forall r | r in LossyRecords() :: r.scheduled.Some?
  {
    hide Record.Key, Record.PrintedKey;
  }

  lemma LossyMissed()
    ensures !NothingMissed(LossyRecords(), Other)
  {
    var recs, k := LossyRecords(), Some("n:0");
    forall r | r in recs
      ensures r.Key() == k
    {
      LossyKeys(r);
    }
    LossyScan();
    assert !MissesNothing(recs, recs[2], 2, Other) by {
      assert recs[1].done <= recs[2].Scheduled() && OnPlatform(Other)(recs[0], recs[2]) == 4.0;
    }
    hide LossyRecords, MissesNothing, ServedOn, Record.Key, SortedBy;
    OneKey(recs, k);
    assert ServedOn(recs, k)[2] == recs[2];
  }
}
