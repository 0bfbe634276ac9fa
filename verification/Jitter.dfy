/** The jittered draw of a workload: every peer group moves later by a random part of its gap to the next group. */
module Jitter {
  import opened Reals
  import opened Sorting
  import opened Timeline

  const CAP := 0.5
  const GAP_FRAC := 0.25

  datatype Outcome = Jittered(events: seq<Event>) | SeveralTimestamps | NotInOrder

  /** What the random generator may deliver. */
  ghost predicate Stream(u: nat -> real) {
    forall p :: 0.0 <= u(p) < 1.0
  }

  // ----- the groups in order of first appearance -----

  function Listed(ev: seq<Event>): seq<Group> {
    if ev == [] then []
    else
      var front, g := ev[..|ev| - 1], ev[|ev| - 1].group;
      if Appears(front, g) then Listed(front) else Listed(front) + [g]
  }

  lemma {:induction false} ListedOnce(ev: seq<Event>)
    ensures forall g :: g in Listed(ev) <==> Appears(ev, g)
    ensures forall p, q | 0 <= p < q < |Listed(ev)| :: Listed(ev)[p] != Listed(ev)[q]
  {
    if ev != [] {
      ListedOnce(ev[..|ev| - 1]);
      forall g
        ensures g in Listed(ev) <==> Appears(ev, g)
      {
        AppearsBefore(ev, g);
      }
    }
  }

  /** Further events only add groups at the end. */
  lemma {:induction false} ListedPrefix(ev: seq<Event>, n: nat)
    requires n <= |ev|
    ensures Listed(ev[..n]) <= Listed(ev)
    decreases |ev|
  {
    if n < |ev| {
      assert ev[..|ev| - 1][..n] == ev[..n];
      ListedPrefix(ev[..|ev| - 1], n);
    } else {
      assert ev[..n] == ev;
    }
  }

  /** The place of an event's group in the list. */
  function Place(ev: seq<Event>, i: nat): (p: nat)
    requires i < |ev|
    ensures p < |Listed(ev)| && Listed(ev)[p] == ev[i].group
  {
    ListedOnce(ev);
    assert Appears(ev, ev[i].group);
    Position(Listed(ev), ev[i].group)
  }

  /** The timestamp of the group at a place of the list. */
  function GroupTime(ev: seq<Event>, p: nat): real
    requires p < |Listed(ev)|
  {
    ListedOnce(ev);
    assert Listed(ev)[p] in Listed(ev);
    Earliest(ev, Listed(ev)[p])
  }

  lemma PlaceTime(ev: seq<Event>, i: nat)
    requires OneTime(ev) && i < |ev|
    ensures GroupTime(ev, Place(ev, i)) == ev[i].time
  {
    OneTimeEnds(ev, i);
  }

  ghost predicate InOrder(ev: seq<Event>) {
    forall p | 0 <= p < |Listed(ev)| - 1 :: GroupTime(ev, p) <= GroupTime(ev, p + 1)
  }

  lemma {:induction false} InOrderPair(ev: seq<Event>, p: nat, q: nat)
    requires InOrder(ev) && p <= q < |Listed(ev)|
    ensures GroupTime(ev, p) <= GroupTime(ev, q)
    decreases q
  {
    if p < q {
      InOrderPair(ev, p, q - 1);
    }
  }

  lemma OneTimePrefix(ev: seq<Event>, n: nat)
    requires OneTime(ev) && n <= |ev|
    ensures OneTime(ev[..n])
  {
  }

  /** A sorted workload with one timestamp per group lists its groups in timestamp order. */
  lemma {:induction false} SortedInOrder(ev: seq<Event>)
    requires Sorted(ev) && OneTime(ev)
    ensures InOrder(ev)
  {
    if ev != [] {
      var front := ev[..|ev| - 1];
      OneTimePrefix(ev, |ev| - 1);
      SortedInOrder(front);
      ListedPrefix(ev, |ev| - 1);
      forall p | 0 <= p < |Listed(ev)| - 1
        ensures GroupTime(ev, p) <= GroupTime(ev, p + 1)
      {
        PrefixTime(ev, p);
        if p + 1 < |Listed(front)| {
          PrefixTime(ev, p + 1);
        } else {
          LastTime(ev, p);
        }
      }
    }
  }

  lemma PrefixTime(ev: seq<Event>, p: nat)
    requires ev != [] && OneTime(ev) && p < |Listed(ev[..|ev| - 1])|
    ensures p < |Listed(ev)| && GroupTime(ev, p) == GroupTime(ev[..|ev| - 1], p)
  {
    var front := ev[..|ev| - 1];
    OneTimePrefix(ev, |ev| - 1);
    ListedPrefix(ev, |ev| - 1);
    ListedOnce(front);
    assert Listed(front)[p] in Listed(front);
    var i :| 0 <= i < |front| && front[i].group == Listed(front)[p];
    OneTimeEnds(front, i);
    OneTimeEnds(ev, i);
  }

  lemma LastTime(ev: seq<Event>, p: nat)
    requires ev != [] && Sorted(ev) && OneTime(ev) && p == |Listed(ev[..|ev| - 1])| - 1 && p + 1 < |Listed(ev)|
    ensures GroupTime(ev, p) <= GroupTime(ev, p + 1)
  {
    ListedOnce(ev);
    assert Listed(ev)[p] in Listed(ev);
    var i :| 0 <= i < |ev| && ev[i].group == Listed(ev)[p];
    OneTimeEnds(ev, i);
    OneTimeEnds(ev, |ev| - 1);
    SortedPair(ev, i, |ev| - 1);
  }

  // ----- the shifts -----

  function Gap(ev: seq<Event>, p: nat, cap: real, gapFrac: real): real
    requires p < |Listed(ev)| && gapFrac != 0.0
  {
    if p + 1 < |Listed(ev)| then GroupTime(ev, p + 1) - GroupTime(ev, p) else cap / gapFrac
  }

  function Shift(ev: seq<Event>, p: nat, u: nat -> real, cap: real, gapFrac: real): real
    requires p < |Listed(ev)| && gapFrac != 0.0
  {
    Times(u(p), Min(cap, Times(gapFrac, Gap(ev, p, cap, gapFrac))))
  }

  lemma PartOf(u: real, x: real)
    requires 0.0 <= u <= 1.0 && 0.0 <= x
    ensures 0.0 <= Times(u, x) <= x
    ensures u > 0.0 && x > 0.0 ==> Times(u, x) > 0.0
    ensures x == 0.0 ==> Times(u, x) == 0.0
  {
    assert x - Times(u, x) == (1.0 - u) * x;
    NonNegativeTimes(1.0 - u, x);
    NonNegativeTimes(u, x);
  }

  /** A shift is between zero and the cap, and does not reach past the next group. */
  lemma ShiftRange(ev: seq<Event>, p: nat, u: nat -> real, cap: real, gapFrac: real)
    requires Stream(u) && InOrder(ev) && p < |Listed(ev)| && cap >= 0.0 && 0.0 < gapFrac <= 1.0
    ensures 0.0 <= Shift(ev, p, u, cap, gapFrac) <= cap
    ensures p + 1 < |Listed(ev)| ==> Shift(ev, p, u, cap, gapFrac) <= GroupTime(ev, p + 1) - GroupTime(ev, p)
  {
    hide Times, GroupTime, Listed;
    var gap := Gap(ev, p, cap, gapFrac);
    if p + 1 < |Listed(ev)| {
      assert GroupTime(ev, p) <= GroupTime(ev, p + 1);
      PartOf(gapFrac, gap);
    } else {
      assert Times(gapFrac, gap) == cap by {
        TimesQuotient(cap, gapFrac);
      }
    }
    PartOf(u(p), Min(cap, Times(gapFrac, gap)));
  }

  /** A shift is the drawn part of the cap, or of the given part of the time to the next group where that is less. */
  lemma ShiftIsPart(ev: seq<Event>, p: nat, u: nat -> real, cap: real, gapFrac: real)
    requires p < |Listed(ev)| && gapFrac > 0.0
    ensures p + 1 == |Listed(ev)| ==> Shift(ev, p, u, cap, gapFrac) == Times(u(p), cap)
    ensures p + 1 < |Listed(ev)| ==>
      var room := Times(gapFrac, GroupTime(ev, p + 1) - GroupTime(ev, p));
      && (room <= cap ==> Shift(ev, p, u, cap, gapFrac) == Times(u(p), room))
      && (room >= cap ==> Shift(ev, p, u, cap, gapFrac) == Times(u(p), cap))
  {
    TimesQuotient(cap, gapFrac);
    hide Times, GroupTime, Listed;
  }

  function Move(ev: seq<Event>, u: nat -> real, cap: real, gapFrac: real): (r: seq<Event>)
    requires gapFrac != 0.0
    ensures |r| == |ev|
  {
    seq(|ev|, i requires 0 <= i < |ev| => ev[i].(time := ev[i].time + Shift(ev, Place(ev, i), u, cap, gapFrac)))
  }

  // ----- the order of the events -----

  /** The group of the next event was listed before the group of this one, which moves away from their common time. */
  ghost predicate Slips(ev: seq<Event>, i: nat, u: nat -> real, cap: real, gapFrac: real)
    requires i < |ev| - 1 && gapFrac != 0.0
  {
    Place(ev, i + 1) < Place(ev, i) && Shift(ev, Place(ev, i), u, cap, gapFrac) > 0.0
  }

  lemma NeighboursMove(ev: seq<Event>, i: nat, u: nat -> real, cap: real, gapFrac: real)
    requires Sorted(ev) && OneTime(ev) && InOrder(ev) && i < |ev| - 1
    requires Stream(u) && cap >= 0.0 && 0.0 < gapFrac <= 1.0
    ensures ev[i].time + Shift(ev, Place(ev, i), u, cap, gapFrac)
        <= ev[i + 1].time + Shift(ev, Place(ev, i + 1), u, cap, gapFrac)
      <==> !Slips(ev, i, u, cap, gapFrac)
  {
    hide Shift, GroupTime, Listed, Place;
    var p, q := Place(ev, i), Place(ev, i + 1);
    PlaceTime(ev, i);
    PlaceTime(ev, i + 1);
    ShiftRange(ev, p, u, cap, gapFrac);
    ShiftRange(ev, q, u, cap, gapFrac);
    if p < q {
      InOrderPair(ev, p + 1, q);
    } else if q < p {
      InOrderPair(ev, q + 1, p);
    }
  }

  /** When a jittered workload is still sorted: exactly when no event slips behind its successor. */
  lemma JitterOrder(ev: seq<Event>, u: nat -> real, cap: real, gapFrac: real)
    requires Sorted(ev) && OneTime(ev) && Stream(u) && cap >= 0.0 && 0.0 < gapFrac <= 1.0
    ensures Sorted(Move(ev, u, cap, gapFrac)) <==> forall i | 0 <= i < |ev| - 1 :: !Slips(ev, i, u, cap, gapFrac)
  {
    hide Shift, Place, Slips;
    SortedInOrder(ev);
    var r := Move(ev, u, cap, gapFrac);
    forall i | 0 <= i < |ev| - 1
      ensures r[i].time <= r[i + 1].time <==> !Slips(ev, i, u, cap, gapFrac)
    {
      NeighboursMove(ev, i, u, cap, gapFrac);
    }
    if i :| 0 <= i < |ev| - 1 && Slips(ev, i, u, cap, gapFrac) {
      assert !(r[i].time <= r[i + 1].time);
    }
  }

  /** The same without any draw: the next event's group was listed before, and this one's group has room to move. */
  ghost predicate CanSlip(ev: seq<Event>, i: nat, cap: real, gapFrac: real)
    requires i < |ev| - 1 && gapFrac != 0.0
  {
    Place(ev, i + 1) < Place(ev, i) && cap > 0.0 && Gap(ev, Place(ev, i), cap, gapFrac) > 0.0
  }

  lemma ShiftPositive(ev: seq<Event>, p: nat, u: nat -> real, cap: real, gapFrac: real)
    requires Stream(u) && InOrder(ev) && p < |Listed(ev)| && cap >= 0.0 && 0.0 < gapFrac <= 1.0
    ensures Shift(ev, p, u, cap, gapFrac) > 0.0 <==> u(p) > 0.0 && cap > 0.0 && Gap(ev, p, cap, gapFrac) > 0.0
  {
    hide Times, GroupTime, Listed;
    var gap := Gap(ev, p, cap, gapFrac);
    if p + 1 < |Listed(ev)| {
      assert GroupTime(ev, p) <= GroupTime(ev, p + 1);
    } else {
      NonNegativeQuotient(cap, gapFrac);
    }
    PartOf(gapFrac, gap);
    PartOf(u(p), Min(cap, Times(gapFrac, gap)));
    ZeroPart(Min(cap, Times(gapFrac, gap)));
  }

  lemma ZeroPart(x: real)
    ensures Times(0.0, x) == 0.0
  {
  }

  function HalfDraws(): nat -> real {
    (p: nat) => 0.5
  }

  /** So every draw keeps the order exactly if no event can slip behind its successor. */
  lemma EveryDrawKeepsOrder(ev: seq<Event>, cap: real, gapFrac: real)
    requires Sorted(ev) && OneTime(ev) && cap >= 0.0 && 0.0 < gapFrac <= 1.0
    ensures (forall u: nat -> real | Stream(u) :: Sorted(Move(ev, u, cap, gapFrac)))
      <==> forall i | 0 <= i < |ev| - 1 :: !CanSlip(ev, i, cap, gapFrac)
  {
    hide Shift, Place, Listed, Gap, Move;
    SortedInOrder(ev);
    forall u: nat -> real, i | Stream(u) && 0 <= i < |ev| - 1
      ensures Slips(ev, i, u, cap, gapFrac) <==> u(Place(ev, i)) > 0.0 && CanSlip(ev, i, cap, gapFrac)
    {
      ShiftPositive(ev, Place(ev, i), u, cap, gapFrac);
    }
    hide Slips, CanSlip;
    forall u: nat -> real | Stream(u)
      ensures Sorted(Move(ev, u, cap, gapFrac)) <==> forall i | 0 <= i < |ev| - 1 :: !Slips(ev, i, u, cap, gapFrac)
    {
      JitterOrder(ev, u, cap, gapFrac);
    }
    assert Stream(HalfDraws());
  }

  lemma BeyondPrefix(some: seq<Group>, all: seq<Group>, p: nat)
    requires some <= all && p < |all| && all[p] !in some
    ensures |some| <= p
  {
    assert forall q: nat | q < |some| :: some[q] == all[q] && some[q] in some;
  }

  /** Among contiguous groups the next event never belongs to a group listed before. */
  lemma ContiguousPlaces(ev: seq<Event>, i: nat)
    requires Contiguous(ev) && i < |ev| - 1
    ensures Place(ev, i) <= Place(ev, i + 1)
  {
    var g, next := ev[i].group, ev[i + 1].group;
    if g != next {
      var sofar := ev[..i + 1];
      assert sofar[i].group == g;
      forall j | 0 <= j < |sofar|
        ensures sofar[j].group != next
      {
        assert j < i ==> !(ev[j].group == ev[i + 1].group);
      }
      ListedOnce(sofar);
      ListedOnce(ev);
      ListedPrefix(ev, i + 1);
      assert Appears(sofar, g) && !Appears(sofar, next);
      assert g in Listed(sofar) && next !in Listed(sofar);
      var p :| 0 <= p < |Listed(sofar)| && Listed(sofar)[p] == g;
      assert Listed(ev)[p] == g && Place(ev, i) == p;
      BeyondPrefix(Listed(sofar), Listed(ev), Place(ev, i + 1));
    }
  }

  lemma MovedTogether(ev: seq<Event>, u: nat -> real, cap: real, gapFrac: real)
    requires OneTime(ev) && gapFrac != 0.0
    ensures OneTime(Move(ev, u, cap, gapFrac)) && SameGroups(Move(ev, u, cap, gapFrac), ev)
  {
    hide Shift, Listed;
    forall i, j | 0 <= i < |ev| && 0 <= j < |ev| && ev[i].group == ev[j].group
      ensures Place(ev, i) == Place(ev, j)
    {
    }
  }

  /** Orderly workloads stay orderly under every draw, and no event moves earlier or by more than the cap. */
  lemma JitterOrderly(ev: seq<Event>, u: nat -> real, cap: real, gapFrac: real)
    requires Orderly(ev) && Stream(u) && cap >= 0.0 && 0.0 < gapFrac <= 1.0
    ensures InOrder(ev) && Orderly(Move(ev, u, cap, gapFrac)) && SameGroups(Move(ev, u, cap, gapFrac), ev)
    ensures forall i | 0 <= i < |ev| :: 0.0 <= Move(ev, u, cap, gapFrac)[i].time - ev[i].time <= cap
  {
    hide Shift, Place, Listed;
    SortedInOrder(ev);
    forall i | 0 <= i < |ev| - 1
      ensures !Slips(ev, i, u, cap, gapFrac)
    {
      ContiguousPlaces(ev, i);
    }
    JitterOrder(ev, u, cap, gapFrac);
    MovedTogether(ev, u, cap, gapFrac);
    forall i | 0 <= i < |ev|
      ensures 0.0 <= Move(ev, u, cap, gapFrac)[i].time - ev[i].time <= cap
    {
      ShiftRange(ev, Place(ev, i), u, cap, gapFrac);
    }
  }

  /** A burst can leave two groups interleaved at one timestamp; a jitter then puts an event before its predecessor. */
  lemma InterleavedGroupsReorder(u: nat -> real)
    requires Stream(u) && u(1) > 0.0
    ensures var ev := [Event(0.0, Peer(0)), Event(0.0, Peer(1)), Event(0.0, Peer(0))];
      Sorted(ev) && OneTime(ev) && !Sorted(Move(ev, u, CAP, GAP_FRAC))
  {
    var ev := [Event(0.0, Peer(0)), Event(0.0, Peer(1)), Event(0.0, Peer(0))];
    ThreeListed(ev);
    SortedInOrder(ev);
    ListedOnce(ev);
    assert Place(ev, 1) == 1 && Place(ev, 2) == 0;
    PartOf(u(1), CAP);
    TimesQuotient(CAP, GAP_FRAC);
    assert Slips(ev, 1, u, CAP, GAP_FRAC);
    JitterOrder(ev, u, CAP, GAP_FRAC);
  }

  lemma ThreeListed(ev: seq<Event>)
    requires |ev| == 3 && ev[0].group == ev[2].group == Peer(0) && ev[1].group == Peer(1)
    ensures Listed(ev) == [Peer(0), Peer(1)]
  {
    var one, two := ev[..1], ev[..2];
    assert ev[..2][..1] == one && one[..0] == [] && two[0].group == Peer(0);
    assert Listed(one) == [Peer(0)];
    assert Listed(two) == [Peer(0), Peer(1)];
    assert Appears(two, Peer(0));
  }

  // ----- the method -----

  /** The first loop: the groups in order, with their timestamps, unless a group has two. */
  method ListGroups(ev: seq<Event>) returns (ok: bool, order: seq<Group>, timeOf: map<Group, real>)
    ensures ok <==> OneTime(ev)
    ensures ok ==> order == Listed(ev) && HoldsEarliest(timeOf, ev)
  {
    hide HoldsEarliest, OneTime, Earliest, Lower, Appears;
    order, timeOf := [], map[];
    NothingListed(ev[..0]);
    for i := 0 to |ev|
      invariant OneTime(ev[..i]) && order == Listed(ev[..i]) && HoldsEarliest(timeOf, ev[..i])
    {
      var t, g := ev[i].time, ev[i].group;
      ListNext(ev, i, timeOf);
      if g !in timeOf {
        order := order + [g];
        timeOf := timeOf[g := t];
      } else if timeOf[g] != t {
        return false, order, timeOf;
      }
    }
    assert ev[..|ev|] == ev;
    return true, order, timeOf;
  }

  lemma NothingListed(ev: seq<Event>)
    requires ev == []
    ensures OneTime(ev) && Listed(ev) == [] && HoldsEarliest(map[], ev)
  {
  }

  lemma ListNext(ev: seq<Event>, i: nat, m: map<Group, real>)
    requires i < |ev| && OneTime(ev[..i]) && HoldsEarliest(m, ev[..i])
    ensures var g, t := ev[i].group, ev[i].time;
      && Listed(ev[..i + 1]) == (if g in m then Listed(ev[..i]) else Listed(ev[..i]) + [g])
      && (g in m && m[g] != t ==> !OneTime(ev))
      && (g in m && m[g] == t ==> OneTime(ev[..i + 1]) && HoldsEarliest(m, ev[..i + 1]))
      && (g !in m ==> OneTime(ev[..i + 1]) && HoldsEarliest(m[g := t], ev[..i + 1]))
  {
    var front, all, g, t := ev[..i], ev[..i + 1], ev[i].group, ev[i].time;
    assert all[..i] == front;
    EarliestNext(m, ev, i);
    OneTimeNext(front, ev[i]);
    assert all == front + [ev[i]];
    if g in m {
      if m[g] == t {
        assert Lower(m, ev[i]) == m;
      } else {
        var f := EarliestIsLeast(front, g);
        assert ev[f] == front[f];
      }
    } else {
      assert Lower(m, ev[i]) == m[g := t];
    }
  }

  lemma OneTimeNext(front: seq<Event>, e: Event)
    requires OneTime(front)
    ensures OneTime(front + [e]) <==> Appears(front, e.group) ==> Earliest(front, e.group) == e.time
  {
    var all := front + [e];
    if Appears(front, e.group) {
      var f := EarliestIsLeast(front, e.group);
      OneTimeEnds(front, f);
      assert all[f] == front[f] && all[|front|] == e;
    }
  }

  method TimesInOrder(ev: seq<Event>, order: seq<Group>, timeOf: map<Group, real>) returns (ok: bool)
    requires order == Listed(ev) && HoldsEarliest(timeOf, ev)
    ensures ok <==> InOrder(ev)
  {
    ListedOnce(ev);
    assert forall p | 0 <= p < |order| :: order[p] in order && timeOf[order[p]] == GroupTime(ev, p);
    var p := 0;
    while p < |order| - 1
      invariant 0 <= p && forall q | 0 <= q < p && q < |order| - 1 :: GroupTime(ev, q) <= GroupTime(ev, q + 1)
    {
      if timeOf[order[p + 1]] < timeOf[order[p]] {
        return false;
      }
      p := p + 1;
    }
    return true;
  }

  method DrawShifts(ev: seq<Event>, order: seq<Group>, timeOf: map<Group, real>, u: nat -> real, cap: real,
                    gapFrac: real)
    returns (shift: map<Group, real>)
    requires order == Listed(ev) && HoldsEarliest(timeOf, ev) && gapFrac != 0.0
    ensures forall p | 0 <= p < |order| :: order[p] in shift && shift[order[p]] == Shift(ev, p, u, cap, gapFrac)
  {
    hide Times, Earliest;
    ListedOnce(ev);
    assert forall p | 0 <= p < |order| :: order[p] in order && timeOf[order[p]] == GroupTime(ev, p);
    hide Listed;
    shift := map[];
    for i := 0 to |order|
      invariant forall p | 0 <= p < i :: order[p] in shift && shift[order[p]] == Shift(ev, p, u, cap, gapFrac)
    {
      var g := order[i];
      var gap := if i + 1 < |order| then timeOf[order[i + 1]] - timeOf[g] else cap / gapFrac;
      shift := shift[g := Times(u(i), Min(cap, Times(gapFrac, gap)))];
    }
  }

  method JitterTimestamps(ev: seq<Event>, u: nat -> real, cap: real, gapFrac: real) returns (r: Outcome)
    requires gapFrac != 0.0
    ensures r.SeveralTimestamps? <==> !OneTime(ev)
    ensures r.NotInOrder? <==> OneTime(ev) && !InOrder(ev)
    ensures r.Jittered? ==> r.events == Move(ev, u, cap, gapFrac)
  {
    hide OneTime, InOrder, Shift, HoldsEarliest, Listed;
    var ok, order, timeOf := ListGroups(ev);
    if !ok {
      return SeveralTimestamps;
    }
    ok := TimesInOrder(ev, order, timeOf);
    if !ok {
      return NotInOrder;
    }
    var shift := DrawShifts(ev, order, timeOf, u, cap, gapFrac);
    forall i | 0 <= i < |ev|
      ensures ev[i].group in shift && shift[ev[i].group] == Shift(ev, Place(ev, i), u, cap, gapFrac)
    {
      assert order[Place(ev, i)] == ev[i].group;
    }
    return Jittered(seq(|ev|, i requires 0 <= i < |ev| => ev[i].(time := ev[i].time + shift[ev[i].group])));
  }

  ghost predicate JitterKeepsOrder(ev: seq<Event>, u: nat -> real) {
    OneTime(ev) && InOrder(ev) && Sorted(Move(ev, u, CAP, GAP_FRAC))
  }

  lemma MovedGroups(ev: seq<Event>, u: nat -> real, cap: real, gapFrac: real)
    requires gapFrac != 0.0
    ensures SameGroups(Move(ev, u, cap, gapFrac), ev)
  {
    hide Shift;
  }

  method Rewrite(events: array<Event>, moved: seq<Event>)
    requires SameGroups(moved, events[..])
    modifies events
    ensures events[..] == moved
  {
    for i := 0 to events.Length
      invariant forall j | 0 <= j < i :: events[j] == moved[j]
      invariant forall j | i <= j < events.Length :: events[j] == old(events[j])
    {
      events[i] := events[i].(time := moved[i].time);
    }
  }

  /** The workload's events are only rewritten once the order check has passed. */
  method JitterWorkload(events: array<Event>, u: nat -> real) returns (done: bool)
    modifies events
    ensures done <==> JitterKeepsOrder(old(events[..]), u)
    ensures events[..] == if done then Move(old(events[..]), u, CAP, GAP_FRAC) else old(events[..])
    ensures Orderly(old(events[..])) && Stream(u) ==> done && Orderly(events[..])
  {
    ghost var ev := events[..];
    if Orderly(ev) && Stream(u) {
      JitterOrderly(ev, u, CAP, GAP_FRAC);
    }
    hide OneTime, InOrder, Move, Contiguous, Stream;
    var r := JitterTimestamps(events[..], u, CAP, GAP_FRAC);
    if !r.Jittered? || !Monotone(r.events) {
      return false;
    }
    MovedGroups(ev, u, CAP, GAP_FRAC);
    Rewrite(events, r.events);
    return true;
  }
}
