/** The burst lever: every event takes the earliest timestamp of its peer group. */
module Burst {
  import opened Reals
  import opened Sorting
  import opened Timeline

  /** What the lever records about the groups' time spans: how many, median and 90th percentile before, all after. */
  datatype Summary = Summary(groups: nat, median: real, p90: real, after: real)

  /** What the lever returns or which error it raises. */
  datatype Outcome = Minted(summary: Summary) | NoGroup | NotMonotone | NoEvents

  function Bursted(ev: seq<Event>): (r: seq<Event>)
    ensures |r| == |ev|
  {
    seq(|ev|, i requires 0 <= i < |ev| => (assert Appears(ev, ev[i].group); ev[i].(time := Earliest(ev, ev[i].group))))
  }

  ghost predicate Grouped(ev: seq<Event>) {
    forall i | 0 <= i < |ev| :: ev[i].group != Missing
  }

  lemma BurstedAt(ev: seq<Event>, i: nat)
    requires i < |ev|
    ensures Appears(ev, ev[i].group) && Bursted(ev)[i] == Event(Earliest(ev, ev[i].group), ev[i].group)
    ensures Bursted(ev)[i].time <= ev[i].time
  {
    assert Appears(ev, ev[i].group);
    var f := EarliestIsLeast(ev, ev[i].group);
  }

  /** Afterwards every group has one timestamp; each group keeps its earliest one. */
  lemma BurstedOneTime(ev: seq<Event>)
    ensures SameGroups(Bursted(ev), ev) && OneTime(Bursted(ev))
    ensures forall g | Appears(ev, g) :: Appears(Bursted(ev), g) && Earliest(Bursted(ev), g) == Earliest(ev, g)
  {
    var r := Bursted(ev);
    forall i | 0 <= i < |ev|
      ensures Appears(ev, ev[i].group) && r[i] == Event(Earliest(ev, ev[i].group), ev[i].group)
    {
      BurstedAt(ev, i);
    }
    forall g | Appears(ev, g)
      ensures Appears(r, g) && Earliest(r, g) == Earliest(ev, g)
    {
      var i :| 0 <= i < |ev| && ev[i].group == g;
      assert r[i].group == g;
      OneTimeEnds(r, i);
    }
  }

  /** The lever changes nothing exactly when every group has one timestamp already; so applying it twice is
      applying it once. */
  lemma BurstFixpoint(ev: seq<Event>)
    ensures Bursted(ev) == ev <==> OneTime(ev)
    ensures Bursted(Bursted(ev)) == Bursted(ev)
  {
    BurstedOneTime(ev);
    OneTimeFixed(ev);
    OneTimeFixed(Bursted(ev));
  }

  lemma OneTimeFixed(ev: seq<Event>)
    ensures OneTime(ev) ==> Bursted(ev) == ev
  {
    if OneTime(ev) {
      forall i | 0 <= i < |ev|
        ensures Bursted(ev)[i] == ev[i]
      {
        BurstedAt(ev, i);
        OneTimeEnds(ev, i);
      }
    }
  }

  /** In a sorted workload the lever fails exactly when an event is followed by one of a group that started earlier. */
  lemma BurstFailure(ev: seq<Event>)
    requires Sorted(ev)
    ensures !Sorted(Bursted(ev)) <==> exists i :: 0 <= i < |ev| - 1 && StartedEarlier(ev, i)
  {
    hide StartedEarlier, Bursted, Earliest;
    var r := Bursted(ev);
    forall i | 0 <= i < |ev| - 1
      ensures r[i].time <= r[i + 1].time <==> !StartedEarlier(ev, i)
    {
      StartsInOrder(ev, i);
    }
    if i :| 0 <= i < |ev| - 1 && StartedEarlier(ev, i) {
      assert !(r[i].time <= r[i + 1].time);
    }
  }

  /** The group of the event after i has a member before every member of i's group, at a smaller timestamp. */
  ghost predicate StartedEarlier(ev: seq<Event>, i: nat)
    requires i < |ev| - 1
  {
    exists f :: 0 <= f < i && ev[f].group == ev[i + 1].group
      && forall j | 0 <= j < |ev| && ev[j].group == ev[i].group :: ev[f].time < ev[j].time
  }

  lemma StartsInOrder(ev: seq<Event>, i: nat)
    requires Sorted(ev) && i < |ev| - 1
    ensures Bursted(ev)[i].time <= Bursted(ev)[i + 1].time <==> !StartedEarlier(ev, i)
  {
    BurstedAt(ev, i);
    BurstedAt(ev, i + 1);
    var f := EarliestIsLeast(ev, ev[i].group);
    var f' := EarliestIsLeast(ev, ev[i + 1].group);
    if Bursted(ev)[i + 1].time < Bursted(ev)[i].time {
      if i <= f' {
        SortedPair(ev, i, f');
      }
      assert StartedEarlier(ev, i);
    }
    if StartedEarlier(ev, i) {
      var s :| 0 <= s < i && ev[s].group == ev[i + 1].group
        && forall j | 0 <= j < |ev| && ev[j].group == ev[i].group :: ev[s].time < ev[j].time;
    }
  }

  /** Where groups are contiguous the lever cannot fail, and the result is fit for every later transform. */
  lemma BurstOrderly(ev: seq<Event>)
    requires Sorted(ev) && Contiguous(ev)
    ensures Orderly(Bursted(ev))
  {
    BurstedOneTime(ev);
    assert forall i | 0 <= i < |ev| - 1 :: !StartedEarlier(ev, i);
    BurstFailure(ev);
  }

  /** The first pass over the events, which stops at an event without a group. */
  method GroupEnds(events: array<Event>) returns (ok: bool, first: map<Group, real>, last: map<Group, real>)
    ensures ok <==> Grouped(events[..])
    ensures ok ==> HoldsEarliest(first, events[..]) && HoldsLatest(last, events[..])
  {
    hide HoldsEarliest, HoldsLatest, Lower, Raise, Min, Max, Appears;
    ghost var ev := events[..];
    first, last := map[], map[];
    NoEnds(ev[..0]);
    for i := 0 to events.Length
      invariant forall j | 0 <= j < i :: ev[j].group != Missing
      invariant HoldsEarliest(first, ev[..i]) && HoldsLatest(last, ev[..i])
    {
      if events[i].group == Missing {
        return false, first, last;
      }
      EarliestNext(first, ev, i);
      LatestNext(last, ev, i);
      first, last := Lower(first, events[i]), Raise(last, events[i]);
    }
    assert ev[..events.Length] == ev;
    return true, first, last;
  }

  method Rewrite(events: array<Event>, first: map<Group, real>)
    requires HoldsEarliest(first, events[..])
    modifies events
    ensures events[..] == Bursted(old(events[..]))
  {
    ghost var ev := events[..];
    for i := 0 to events.Length
      invariant forall j | 0 <= j < i :: events[j] == Bursted(ev)[j]
      invariant forall j | i <= j < events.Length :: events[j] == ev[j]
    {
      BurstedAt(ev, i);
      events[i] := events[i].(time := first[events[i].group]);
    }
  }

  // ----- the recorded spans -----

  function Spans(ev: seq<Event>): map<Group, real> {
    map i | 0 <= i < |ev| :: ev[i].group := SpanOf(ev, i)
  }

  function SpanOf(ev: seq<Event>, i: nat): real
    requires i < |ev|
  {
    assert Appears(ev, ev[i].group);
    Latest(ev, ev[i].group) - Earliest(ev, ev[i].group)
  }

  function In(spans: map<Group, real>): Group -> real {
    g => if g in spans then spans[g] else 0.0
  }

  function Ascending(): (real, real) -> bool {
    (x: real, y: real) => x <= y
  }

  /** The values of the map in ascending order, as often as they occur. */
  ghost predicate ListsValues(values: seq<real>, spans: map<Group, real>) {
    SortedBy(values, Ascending()) && exists order: seq<Group> ::
      ListsKeys(order, spans.Keys) && multiset(values) == multiset(Map(order, In(spans)))
  }

  ghost predicate ListsKeys(order: seq<Group>, keys: set<Group>) {
    && (forall g :: g in order <==> g in keys)
    && forall i, j | 0 <= i < j < |order| :: order[i] != order[j]
  }

  function SummaryOf(values: seq<real>): Summary
    requires values != []
  {
    var n := |values|;
    var median := if n % 2 == 1 then values[n / 2] else (values[n / 2 - 1] + values[n / 2]) / 2.0;
    var last := (0.9 * (n - 1) as real).Floor;
    assert 0.0 <= 0.9 * (n - 1) as real <= (n - 1) as real;
    Summary(n, median, values[last], 0.0)
  }

  /** The number of values, half the sum of the two middle ones (the same one twice for an odd number), the one at the
      index that lies nine tenths of the way along, and no span afterwards. */
  ghost predicate IsSummaryOf(s: Summary, values: seq<real>) {
    && s.groups == |values| > 0 && s.after == 0.0
    && 2.0 * s.median == values[(|values| - 1) / 2] + values[|values| / 2]
    && exists i :: 0 <= i < |values| && 10 * i <= 9 * (|values| - 1) < 10 * i + 10 && s.p90 == values[i]
  }

  ghost predicate Summarises(s: Summary, spans: map<Group, real>) {
    exists values :: ListsValues(values, spans) && IsSummaryOf(s, values)
  }

  lemma SummaryIs(values: seq<real>)
    requires values != []
    ensures IsSummaryOf(SummaryOf(values), values)
  {
    var n := |values|;
    var last := (0.9 * (n - 1) as real).Floor;
    assert 0.0 <= 0.9 * (n - 1) as real <= (n - 1) as real;
    assert 10 * last <= 9 * (n - 1) < 10 * last + 10;
    assert values[last] == SummaryOf(values).p90;
  }

  method KeyList(keys: set<Group>) returns (order: seq<Group>)
    ensures ListsKeys(order, keys)
  {
    order := [];
    var todo := keys;
    while todo != {}
      invariant todo <= keys && ListsKeys(order, keys - todo)
    {
      var g :| g in todo;
      order, todo := order + [g], todo - {g};
    }
  }

  method Summarise(spans: map<Group, real>) returns (s: Summary)
    requires spans != map[]
    ensures Summarises(s, spans)
  {
    var order := KeyList(spans.Keys);
    var g :| g in spans.Keys;
    assert g in order;
    var values := Sort(Map(order, In(spans)), Ascending());
    assert |values| == |multiset(values)| == |order|;
    assert ListsValues(values, spans);
    SummaryIs(values);
    s := SummaryOf(values);
  }

  /** The recorded span after the lever is the true one: none of the groups extends over any time. */
  lemma SpansAfter(ev: seq<Event>)
    ensures Spans(Bursted(ev)).Keys == Spans(ev).Keys
    ensures forall g | g in Spans(Bursted(ev)) :: Spans(Bursted(ev))[g] == 0.0
  {
    hide Bursted, SpanOf, OneTime, Spans, Earliest;
    var r := Bursted(ev);
    BurstedOneTime(ev);
    forall i | 0 <= i < |r|
      ensures SpanOf(r, i) == 0.0
    {
      NoSpan(r, i);
    }
    SameSpanKeys(r, ev);
    SpanValues(r);
  }

  lemma NoSpan(ev: seq<Event>, i: nat)
    requires OneTime(ev) && i < |ev|
    ensures SpanOf(ev, i) == 0.0
  {
    OneTimeEnds(ev, i);
  }

  lemma SameSpanKeys(ev: seq<Event>, other: seq<Event>)
    requires SameGroups(ev, other)
    ensures Spans(ev).Keys == Spans(other).Keys
  {
    hide SpanOf;
    forall g
      ensures g in Spans(ev).Keys <==> g in Spans(other).Keys
    {
    }
  }

  lemma SpanValues(ev: seq<Event>)
    requires forall i | 0 <= i < |ev| :: SpanOf(ev, i) == 0.0
    ensures forall g | g in Spans(ev) :: Spans(ev)[g] == 0.0
  {
    hide SpanOf;
  }

  /** In place. On a missing group nothing has been changed yet; when the order check fails everything has. */
  method BurstEvents(events: array<Event>) returns (r: Outcome)
    modifies events
    ensures r.NoGroup? <==> !Grouped(old(events[..]))
    ensures events[..] == if r.NoGroup? then old(events[..]) else Bursted(old(events[..]))
    ensures r.NotMonotone? <==> Grouped(old(events[..])) && !Sorted(Bursted(old(events[..])))
    ensures r.NoEvents? <==> events.Length == 0
    ensures r.Minted? ==> Summarises(r.summary, Spans(old(events[..])))
  {
    ghost var ev := events[..];
    var ok, first, last := GroupEnds(events);
    if !ok {
      return NoGroup;
    }
    SpansAre(first, last, ev);
    Rewrite(events, first);
    if !Monotone(events[..]) {
      return NotMonotone;
    }
    if events.Length == 0 {
      return NoEvents;
    }
    assert events.Length > 0 ==> ev[0].group in Spans(ev);
    var summary := Summarise(map g | g in first :: last[g] - first[g]);
    return Minted(summary);
  }

  lemma SpansAre(first: map<Group, real>, last: map<Group, real>, ev: seq<Event>)
    requires HoldsEarliest(first, ev) && HoldsLatest(last, ev)
    ensures forall g | g in first :: g in last
    ensures (map g | g in first :: last[g] - first[g]) == Spans(ev)
  {
    var spans := map g | g in first :: last[g] - first[g];
    assert forall g :: g in spans <==> g in Spans(ev);
  }
}
