/** The arrival surge: groups anchored at or after the switch are compressed toward it by the factor k. */
module Surge {
  import opened Reals
  import opened Timeline

  datatype Workload = Workload(events: seq<Event>, duration: real)

  datatype Outcome =
    | Surged(out: Workload, pre: nat, post: nat, straddling: nat)
    | FactorBelowOne
    | OrderBroken(places: nat)

  function Compress(t: real, switch: real, k: real): real
    requires k >= 1.0
  {
    switch + (t - switch) / k
  }

  /** The event's group starts before the switch. */
  predicate Before(ev: seq<Event>, i: nat, switch: real)
    requires i < |ev|
  {
    assert Appears(ev, ev[i].group);
    Earliest(ev, ev[i].group) < switch
  }

  function NewTime(ev: seq<Event>, i: nat, switch: real, k: real): real
    requires i < |ev| && k >= 1.0
  {
    if Before(ev, i, switch) then ev[i].time else Compress(ev[i].time, switch, k)
  }

  function Moved(ev: seq<Event>, switch: real, k: real): (r: seq<Event>)
    requires k >= 1.0
    ensures |r| == |ev|
  {
    seq(|ev|, i requires 0 <= i < |ev| => ev[i].(time := NewTime(ev, i, switch, k)))
  }

  // ----- compressing -----

  lemma Quotient(d: real, k: real)
    requires k >= 1.0
    ensures d / k * k == d
    ensures d >= 0.0 ==> 0.0 <= d / k <= d
  {
    if d >= 0.0 {
      NonNegativeQuotient(d, k);
      var q := d / k;
      NonNegativeTimes(q, k - 1.0);
    }
  }

  /** Times from the switch on stay there, move no later, and keep their order. */
  lemma CompressOrder(s: real, t: real, switch: real, k: real)
    requires k >= 1.0 && switch <= s <= t
    ensures switch <= Compress(s, switch, k) <= s
    ensures Compress(s, switch, k) <= Compress(t, switch, k)
  {
    Quotient(s - switch, k);
    QuotientOrder(s - switch, t - switch, k);
  }

  lemma QuotientOrder(c: real, d: real, k: real)
    requires k >= 1.0 && c <= d
    ensures c / k <= d / k
  {
    Quotient(d - c, k);
    assert d / k - c / k == (d - c) / k;
  }

  // ----- when the order breaks -----

  /** The group of event i starts before the switch but this member comes after where the next event is moved to. */
  ghost predicate Overtaken(ev: seq<Event>, i: nat, switch: real, k: real)
    requires i < |ev| - 1 && k >= 1.0
  {
    Before(ev, i, switch) && !Before(ev, i + 1, switch) && Compress(ev[i + 1].time, switch, k) < ev[i].time
  }

  lemma NotBeforeSwitch(ev: seq<Event>, i: nat, switch: real)
    requires i < |ev| && !Before(ev, i, switch)
    ensures switch <= ev[i].time
  {
    assert Appears(ev, ev[i].group);
    var f := EarliestIsLeast(ev, ev[i].group);
  }

  lemma PairBreaks(ev: seq<Event>, i: nat, switch: real, k: real)
    requires i < |ev| - 1 && k >= 1.0 && ev[i].time <= ev[i + 1].time
    ensures NewTime(ev, i + 1, switch, k) < NewTime(ev, i, switch, k) <==> Overtaken(ev, i, switch, k)
  {
    hide Before, Compress;
    if !Before(ev, i, switch) {
      NotBeforeSwitch(ev, i, switch);
      CompressOrder(ev[i].time, ev[i + 1].time, switch, k);
    }
  }

  /** In a sorted workload the surge fails exactly when some event is overtaken; its group then straddles the switch. */
  lemma SurgeFailure(ev: seq<Event>, switch: real, k: real)
    requires Sorted(ev) && k >= 1.0
    ensures !Sorted(Moved(ev, switch, k)) <==> exists i :: 0 <= i < |ev| - 1 && Overtaken(ev, i, switch, k)
    ensures forall i | 0 <= i < |ev| - 1 && Overtaken(ev, i, switch, k) :: Straddles(ev, ev[i].group, switch)
  {
    hide Overtaken, NewTime;
    var r := Moved(ev, switch, k);
    forall i | 0 <= i < |ev| - 1
      ensures r[i + 1].time < r[i].time <==> Overtaken(ev, i, switch, k)
      ensures Overtaken(ev, i, switch, k) ==> Straddles(ev, ev[i].group, switch)
    {
      PairBreaks(ev, i, switch, k);
      OvertakenStraddles(ev, i, switch, k);
    }
    if i :| 0 <= i < |ev| - 1 && Overtaken(ev, i, switch, k) {
      assert r[i + 1].time < r[i].time;
    }
  }

  /** The group has members on both sides of the switch. */
  ghost predicate Straddles(ev: seq<Event>, g: Group, switch: real) {
    Appears(ev, g) && Earliest(ev, g) < switch <= Latest(ev, g)
  }

  lemma OvertakenStraddles(ev: seq<Event>, i: nat, switch: real, k: real)
    requires i < |ev| - 1 && k >= 1.0
    ensures Overtaken(ev, i, switch, k) ==> Straddles(ev, ev[i].group, switch)
  {
    if Overtaken(ev, i, switch, k) {
      NotBeforeSwitch(ev, i + 1, switch);
      CompressOrder(ev[i + 1].time, ev[i + 1].time, switch, k);
      assert Appears(ev, ev[i].group);
      var l := LatestIsGreatest(ev, ev[i].group);
    }
  }

  /** Where every group has one timestamp none straddles, so the surge of a sorted workload cannot fail, and its result
      is again sorted with one timestamp per group. */
  lemma SurgeOrderly(ev: seq<Event>, switch: real, k: real)
    requires Sorted(ev) && OneTime(ev) && k >= 1.0
    ensures forall g :: !Straddles(ev, g, switch)
    ensures Sorted(Moved(ev, switch, k)) && OneTime(Moved(ev, switch, k)) && SameGroups(Moved(ev, switch, k), ev)
    ensures Contiguous(ev) ==> Contiguous(Moved(ev, switch, k))
  {
    forall g
      ensures !Straddles(ev, g, switch)
    {
      if Appears(ev, g) {
        var i :| 0 <= i < |ev| && ev[i].group == g;
        OneTimeEnds(ev, i);
      }
    }
    SurgeFailure(ev, switch, k);
    MovedOneTime(ev, switch, k);
  }

  lemma MovedOneTime(ev: seq<Event>, switch: real, k: real)
    requires OneTime(ev) && k >= 1.0
    ensures OneTime(Moved(ev, switch, k))
  {
    hide Compress, Earliest;
  }

  /** A factor of one changes nothing, whatever the workload. */
  lemma UnitSurge(ev: seq<Event>, switch: real)
    ensures Moved(ev, switch, 1.0) == ev
  {
    forall i | 0 <= i < |ev|
      ensures NewTime(ev, i, switch, 1.0) == ev[i].time
    {
      Quotient(ev[i].time - switch, 1.0);
    }
  }

  /** Two groups after the switch end up k times closer; a group before it stays where it is. */
  lemma GapsShrink(ev: seq<Event>, switch: real, k: real, i: nat, j: nat)
    requires k >= 1.0 && i < |ev| && j < |ev|
    ensures Before(ev, i, switch) ==> Moved(ev, switch, k)[i] == ev[i]
    ensures !Before(ev, i, switch) && !Before(ev, j, switch) ==>
      (Moved(ev, switch, k)[j].time - Moved(ev, switch, k)[i].time) * k == ev[j].time - ev[i].time
  {
    hide Before;
    var c, d := ev[i].time - switch, ev[j].time - switch;
    Quotient(c, k);
    Quotient(d, k);
    assert (d / k - c / k) * k == d / k * k - c / k * k;
  }

  /** The event's group has a member before the switch. */
  ghost predicate Stays(ev: seq<Event>, i: nat, switch: real)
    requires i < |ev|
  {
    exists j :: 0 <= j < |ev| && ev[j].group == ev[i].group && ev[j].time < switch
  }

  /** What moves and where to: an event whose group has a member before the switch stays; any other ends up at a k-th of
      its distance from the switch. */
  lemma MovedIs(ev: seq<Event>, switch: real, k: real, i: nat)
    requires k >= 1.0 && i < |ev|
    ensures Moved(ev, switch, k)[i].group == ev[i].group
    ensures (exists j :: 0 <= j < |ev| && ev[j].group == ev[i].group && ev[j].time < switch)
      ==> Moved(ev, switch, k)[i] == ev[i]
    ensures (forall j | 0 <= j < |ev| && ev[j].group == ev[i].group :: ev[j].time >= switch)
      ==> (Moved(ev, switch, k)[i].time - switch) * k == ev[i].time - switch
  {
    BeforeIs(ev, i, switch);
    Quotient(ev[i].time - switch, k);
    hide Before;
  }

  lemma BeforeIs(ev: seq<Event>, i: nat, switch: real)
    requires i < |ev|
    ensures Before(ev, i, switch) <==> Stays(ev, i, switch)
  {
    assert Appears(ev, ev[i].group);
    var f := EarliestIsLeast(ev, ev[i].group);
  }

  // ----- the method -----

  function CountBefore(ev: seq<Event>, i: nat, switch: real): nat
    requires i <= |ev|
  {
    if i == 0 then 0 else CountBefore(ev, i - 1, switch) + if Before(ev, i - 1, switch) then 1 else 0
  }

  function CountBreaks(ev: seq<Event>, i: nat): nat
    requires i < |ev|
  {
    if i == 0 then 0 else CountBreaks(ev, i - 1) + if ev[i].time < ev[i - 1].time then 1 else 0
  }

  /** The events that stay. */
  ghost function Staying(ev: seq<Event>, n: nat, switch: real): set<nat>
    requires n <= |ev|
  {
    set i: nat | i < n && Stays(ev, i, switch)
  }

  lemma StayingNext(ev: seq<Event>, n: nat, switch: real)
    requires n < |ev|
    ensures |Staying(ev, n + 1, switch)| == |Staying(ev, n, switch)| + if Stays(ev, n, switch) then 1 else 0
  {
    hide Stays;
    assert Staying(ev, n + 1, switch) == Staying(ev, n, switch) + if Stays(ev, n, switch) then {n} else {};
  }

  lemma {:induction false} CountBeforeIs(ev: seq<Event>, n: nat, switch: real)
    requires n <= |ev|
    ensures CountBefore(ev, n, switch) == |Staying(ev, n, switch)|
  {
    if n == 0 {
      assert Staying(ev, n, switch) == {};
    } else {
      CountBeforeIs(ev, n - 1, switch);
      BeforeIs(ev, n - 1, switch);
      StayingNext(ev, n - 1, switch);
      hide Before, Stays, Staying;
    }
  }

  /** The event after i is earlier than event i. */
  predicate Drops(ev: seq<Event>, i: nat)
    requires i < |ev| - 1
  {
    ev[i + 1].time < ev[i].time
  }

  function BreakSet(ev: seq<Event>, n: nat): set<nat>
    requires n < |ev|
  {
    set i: nat | i < n && Drops(ev, i)
  }

  lemma {:induction false} CountBreaksIs(ev: seq<Event>, n: nat)
    requires n < |ev|
    ensures CountBreaks(ev, n) == |BreakSet(ev, n)|
  {
    if n == 0 {
      assert BreakSet(ev, n) == {};
    } else {
      CountBreaksIs(ev, n - 1);
      assert BreakSet(ev, n) == BreakSet(ev, n - 1) + if Drops(ev, n - 1) then {n - 1} else {};
    }
  }

  /** The order check counts the places where it is broken. */
  lemma {:induction false} NoBreaks(ev: seq<Event>, i: nat)
    requires i < |ev|
    ensures CountBreaks(ev, i) == 0 <==> forall j | 0 <= j < i :: ev[j].time <= ev[j + 1].time
  {
    if i > 0 {
      NoBreaks(ev, i - 1);
    }
  }

  method Anchors(ev: seq<Event>) returns (anchor: map<Group, real>, last: map<Group, real>)
    ensures HoldsEarliest(anchor, ev) && HoldsLatest(last, ev)
  {
    hide HoldsEarliest, HoldsLatest, Lower, Raise, Min, Max, Appears;
    anchor, last := map[], map[];
    NoEnds(ev[..0]);
    for i := 0 to |ev|
      invariant HoldsEarliest(anchor, ev[..i]) && HoldsLatest(last, ev[..i])
    {
      EarliestNext(anchor, ev, i);
      LatestNext(last, ev, i);
      anchor, last := Lower(anchor, ev[i]), Raise(last, ev[i]);
    }
    assert ev[..|ev|] == ev;
  }

  method MoveEvents(ev: seq<Event>, anchor: map<Group, real>, switch: real, k: real)
    returns (out: seq<Event>, pre: nat, post: nat)
    requires k >= 1.0 && HoldsEarliest(anchor, ev)
    ensures out == Moved(ev, switch, k)
    ensures pre == CountBefore(ev, |ev|, switch) && pre + post == |ev|
  {
    hide Compress, Earliest;
    out, pre, post := ev, 0, 0;
    for i := 0 to |ev|
      invariant |out| == |ev| && forall j | 0 <= j < i :: out[j] == Moved(ev, switch, k)[j]
      invariant forall j | i <= j < |ev| :: out[j] == ev[j]
      invariant pre == CountBefore(ev, i, switch) && pre + post == i
    {
      assert Appears(ev, ev[i].group);
      if anchor[ev[i].group] < switch {
        pre := pre + 1;
      } else {
        out := out[i := out[i].(time := Compress(ev[i].time, switch, k))];
        post := post + 1;
      }
    }
  }

  /** The places at which the order is broken. */
  function Places(ev: seq<Event>): nat {
    if ev == [] then 0 else CountBreaks(ev, |ev| - 1)
  }

  method Breaks(ev: seq<Event>) returns (bad: nat)
    ensures bad == Places(ev)
    ensures bad == 0 <==> Sorted(ev)
  {
    bad := 0;
    var i := 1;
    while i < |ev|
      invariant i >= 1 && (if ev == [] then bad == 0 else i <= |ev| && bad == CountBreaks(ev, i - 1))
    {
      if ev[i].time < ev[i - 1].time {
        bad := bad + 1;
      }
      i := i + 1;
    }
    if ev != [] {
      NoBreaks(ev, |ev| - 1);
    }
  }

  lemma PlacesAre(ev: seq<Event>)
    requires Places(ev) != 0
    ensures ev != [] && Places(ev) == |BreakSet(ev, |ev| - 1)|
  {
    CountBreaksIs(ev, |ev| - 1);
  }

  lemma CompressedBack(t: real, switch: real, k: real)
    requires k >= 1.0
    ensures (Compress(t, switch, k) - switch) * k == t - switch
  {
    Quotient(t - switch, k);
  }

  ghost function StraddlingGroups(ev: seq<Event>, switch: real): set<Group> {
    set i | 0 <= i < |ev| && Straddles(ev, ev[i].group, switch) :: ev[i].group
  }

  lemma HeldTogether(anchor: map<Group, real>, last: map<Group, real>, ev: seq<Event>)
    requires HoldsEarliest(anchor, ev) && HoldsLatest(last, ev)
    ensures forall g | g in anchor :: g in last
  {
  }

  lemma StraddleSet(anchor: map<Group, real>, last: map<Group, real>, ev: seq<Event>, switch: real, s: set<Group>)
    requires HoldsEarliest(anchor, ev) && HoldsLatest(last, ev)
    requires forall g | g in anchor :: g in last
    requires s == set g | g in anchor && anchor[g] < switch <= last[g]
    ensures s == StraddlingGroups(ev, switch)
  {
    forall g
      ensures g in s <==> g in StraddlingGroups(ev, switch)
    {
    }
  }

  method SurgeAfter(wl: Workload, switch: real, k: real) returns (r: Outcome)
    ensures r.FactorBelowOne? <==> k < 1.0
    ensures r.OrderBroken? <==> k >= 1.0 && !Sorted(Moved(wl.events, switch, k))
    ensures r.OrderBroken? ==>
      wl.events != [] && r.places == |BreakSet(Moved(wl.events, switch, k), |wl.events| - 1)|
    ensures r.Surged? ==>
      && k >= 1.0 && r.out.events == Moved(wl.events, switch, k)
      && r.out.duration == (if k == 1.0 then wl.duration else Compress(wl.duration, switch, k))
      && r.pre == CountBefore(wl.events, |wl.events|, switch) && r.pre + r.post == |wl.events|
      && r.straddling == |StraddlingGroups(wl.events, switch)|
      && r.pre == |Staying(wl.events, |wl.events|, switch)|
      && (r.out.duration - switch) * k == wl.duration - switch
    ensures k == 1.0 && Sorted(wl.events) ==> r.Surged? && r.out == wl
  {
    hide Places, Sorted, HoldsEarliest, HoldsLatest, CountBefore, StraddlingGroups, Moved, Compress;
    if k < 1.0 {
      return FactorBelowOne;
    }
    var anchor, last := Anchors(wl.events);
    var out, pre, post := MoveEvents(wl.events, anchor, switch, k);
    var bad := Breaks(out);
    if k == 1.0 {
      UnitSurge(wl.events, switch);
    }
    if bad != 0 {
      PlacesAre(out);
      return OrderBroken(bad);
    }
    CountBeforeIs(wl.events, |wl.events|, switch);
    HeldTogether(anchor, last, wl.events);
    var straddle := set g | g in anchor && anchor[g] < switch <= last[g];
    StraddleSet(anchor, last, wl.events, switch, straddle);
    var duration := if k == 1.0 then wl.duration else Compress(wl.duration, switch, k);
    CompressedBack(wl.duration, switch, k);
    return Surged(Workload(out, duration), pre, post, |straddle|);
  }
}
