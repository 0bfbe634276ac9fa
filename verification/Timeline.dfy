/** Workload events with their peer groups, and the two properties the time transforms live on. */
module Timeline {
  import opened Reals

  /** `e.get("peer_group")`: events without one share the missing group. */
  datatype Group = Missing | Peer(id: nat)

  datatype Event = Event(time: real, group: Group)

  ghost predicate Sorted(ev: seq<Event>) {
    forall i | 0 <= i < |ev| - 1 :: ev[i].time <= ev[i + 1].time
  }

  /** Members of a group share one timestamp: they are dispatched together. */
  ghost predicate OneTime(ev: seq<Event>) {
    forall i, j | 0 <= i < |ev| && 0 <= j < |ev| && ev[i].group == ev[j].group :: ev[i].time == ev[j].time
  }

  /** The members of a group are neighbours. */
  ghost predicate Contiguous(ev: seq<Event>) {
    forall i, j, k | 0 <= i < j < k < |ev| && ev[i].group == ev[k].group :: ev[j].group == ev[i].group
  }

  ghost predicate Orderly(ev: seq<Event>) {
    Sorted(ev) && OneTime(ev) && Contiguous(ev)
  }

  ghost predicate SameGroups(ev: seq<Event>, other: seq<Event>) {
    |ev| == |other| && forall i | 0 <= i < |ev| :: ev[i].group == other[i].group
  }

  predicate Appears(ev: seq<Event>, g: Group) {
    exists i :: 0 <= i < |ev| && ev[i].group == g
  }

  lemma {:induction false} SortedPair(ev: seq<Event>, i: nat, j: nat)
    requires Sorted(ev) && i <= j < |ev|
    ensures ev[i].time <= ev[j].time
    decreases j
  {
    if i < j {
      SortedPair(ev, i, j - 1);
    }
  }

  /** The event order is kept: no later event now has a smaller timestamp. */
  predicate Monotone(ev: seq<Event>) {
    forall i | 0 <= i < |ev| - 1 :: !(ev[i + 1].time < ev[i].time)
  }

  // ----- the ends of a group -----

  /** The earliest timestamp of a group. */
  function Earliest(ev: seq<Event>, g: Group): real
    requires Appears(ev, g)
  {
    var front, last := ev[..|ev| - 1], ev[|ev| - 1];
    if last.group != g then (AppearsBefore(ev, g); Earliest(front, g))
    else if Appears(front, g) then Min(Earliest(front, g), last.time)
    else last.time
  }

  function Latest(ev: seq<Event>, g: Group): real
    requires Appears(ev, g)
  {
    var front, last := ev[..|ev| - 1], ev[|ev| - 1];
    if last.group != g then (AppearsBefore(ev, g); Latest(front, g))
    else if Appears(front, g) then Max(Latest(front, g), last.time)
    else last.time
  }

  lemma AppearsBefore(ev: seq<Event>, g: Group)
    requires ev != []
    ensures Appears(ev, g) <==> ev[|ev| - 1].group == g || Appears(ev[..|ev| - 1], g)
  {
    if Appears(ev, g) {
      var i :| 0 <= i < |ev| && ev[i].group == g;
      assert i < |ev| - 1 ==> ev[..|ev| - 1][i].group == g;
    }
    if Appears(ev[..|ev| - 1], g) {
      var i :| 0 <= i < |ev| - 1 && ev[..|ev| - 1][i].group == g;
      assert ev[i].group == g;
    }
  }

  /** It is a lower bound of the group's timestamps, and one of them. */
  lemma {:induction false} EarliestIsLeast(ev: seq<Event>, g: Group) returns (first: nat)
    requires Appears(ev, g)
    ensures first < |ev| && ev[first].group == g && ev[first].time == Earliest(ev, g)
    ensures forall i | 0 <= i < |ev| && ev[i].group == g :: Earliest(ev, g) <= ev[i].time
  {
    var front, last := ev[..|ev| - 1], ev[|ev| - 1];
    AppearsBefore(ev, g);
    first := |ev| - 1;
    if Appears(front, g) {
      var f := EarliestIsLeast(front, g);
      if ev[f].time == Earliest(ev, g) {
        first := f;
      }
      assert forall i | 0 <= i < |ev| - 1 :: ev[i] == front[i];
    } else {
      assert forall i | 0 <= i < |ev| - 1 :: front[i] == ev[i] && ev[i].group != g;
    }
  }

  lemma {:induction false} LatestIsGreatest(ev: seq<Event>, g: Group) returns (last: nat)
    requires Appears(ev, g)
    ensures last < |ev| && ev[last].group == g && ev[last].time == Latest(ev, g)
    ensures forall i | 0 <= i < |ev| && ev[i].group == g :: ev[i].time <= Latest(ev, g)
  {
    var front := ev[..|ev| - 1];
    AppearsBefore(ev, g);
    last := |ev| - 1;
    if Appears(front, g) {
      var l := LatestIsGreatest(front, g);
      if ev[l].time == Latest(ev, g) {
        last := l;
      }
      assert forall i | 0 <= i < |ev| - 1 :: ev[i] == front[i];
    } else {
      assert forall i | 0 <= i < |ev| - 1 :: front[i] == ev[i] && ev[i].group != g;
    }
  }

  /** Where groups have one timestamp, it is both ends. */
  lemma OneTimeEnds(ev: seq<Event>, i: nat)
    requires OneTime(ev) && i < |ev|
    ensures Appears(ev, ev[i].group)
    ensures Earliest(ev, ev[i].group) == ev[i].time == Latest(ev, ev[i].group)
  {
    assert Appears(ev, ev[i].group);
    var f := EarliestIsLeast(ev, ev[i].group);
    var l := LatestIsGreatest(ev, ev[i].group);
  }

  // ----- the dictionaries of first and last timestamps -----

  ghost predicate HoldsEarliest(m: map<Group, real>, ev: seq<Event>) {
    (forall g :: g in m <==> Appears(ev, g)) && forall g | g in m :: m[g] == Earliest(ev, g)
  }

  ghost predicate HoldsLatest(m: map<Group, real>, ev: seq<Event>) {
    (forall g :: g in m <==> Appears(ev, g)) && forall g | g in m :: m[g] == Latest(ev, g)
  }

  /** anchor[g] = min(anchor.get(g, t), t) */
  function Lower(m: map<Group, real>, e: Event): map<Group, real> {
    m[e.group := Min(if e.group in m then m[e.group] else e.time, e.time)]
  }

  function Raise(m: map<Group, real>, e: Event): map<Group, real> {
    m[e.group := Max(if e.group in m then m[e.group] else e.time, e.time)]
  }

  lemma NoEnds(ev: seq<Event>)
    requires ev == []
    ensures HoldsEarliest(map[], ev) && HoldsLatest(map[], ev)
  {
  }

  lemma EarliestNext(m: map<Group, real>, ev: seq<Event>, i: nat)
    requires i < |ev| && HoldsEarliest(m, ev[..i])
    ensures HoldsEarliest(Lower(m, ev[i]), ev[..i + 1])
  {
    assert ev[..i + 1][..i] == ev[..i];
    forall g
      ensures g in Lower(m, ev[i]) <==> Appears(ev[..i + 1], g)
    {
      AppearsBefore(ev[..i + 1], g);
    }
  }

  lemma LatestNext(m: map<Group, real>, ev: seq<Event>, i: nat)
    requires i < |ev| && HoldsLatest(m, ev[..i])
    ensures HoldsLatest(Raise(m, ev[i]), ev[..i + 1])
  {
    assert ev[..i + 1][..i] == ev[..i];
    forall g
      ensures g in Raise(m, ev[i]) <==> Appears(ev[..i + 1], g)
    {
      AppearsBefore(ev[..i + 1], g);
    }
  }
}
