/** How the trace's arrival rate is split over task types, then over each type's replicas. */
module Arrivals {
  import opened Externality
  import opened Reals
  import opened Sums
  import opened Wrappers

  type Replicas = map<string, set<Platform>>

  function Unit(names: seq<string>): real {
    if names == [] then 0.0 else 1.0 / |names| as real
  }

  /** The fraction of the batch's tasks that have type t. */
  function Share(names: seq<string>, t: string): real {
    Times(Count(names, t) as real, Unit(names))
  }

  function Types(names: seq<string>): set<string> {
    set t | t in names
  }

  function Serving(replicas: Replicas, t: string): set<Platform> {
    if t in replicas then replicas[t] else {}
  }

  /** What type t sends to one of its replicas. */
  function PerReplica(names: seq<string>, replicas: Replicas, rate: real, t: string): real
    requires Serving(replicas, t) != {}
  {
    Times(rate, Share(names, t)) / |Serving(replicas, t)| as real
  }

  function Flow(names: seq<string>, replicas: Replicas, rate: real): (Platform, string) -> real {
    (pid: Platform, t: string) =>
      if pid in Serving(replicas, t) then PerReplica(names, replicas, rate, t) else 0.0
  }

  /** lambda_p: everything that the batch's types send to platform p. */
  ghost function Rate(names: seq<string>, replicas: Replicas, rate: real): Platform -> real {
    SetRowSum(Flow(names, replicas, rate), Types(names))
  }

  function Served(names: seq<string>, replicas: Replicas): nat {
    if names == [] then 0 else (if Serving(replicas, names[0]) != {} then 1 else 0) + Served(names[1..], replicas)
  }

  /** The platforms that serve one of these types. */
  function Reached(types: set<string>, replicas: Replicas): set<Platform> {
    set t, pid | t in types && pid in Serving(replicas, t) :: pid
  }

  lemma ReachedNone(replicas: Replicas)
    ensures Reached({}, replicas) == {}
  {
  }

  lemma ReachedNext(types: set<string>, t: string, replicas: Replicas)
    ensures Reached(types + {t}, replicas) == Reached(types, replicas) + Serving(replicas, t)
  {
    forall pid | pid in Reached(types, replicas) + Serving(replicas, t)
      ensures pid in Reached(types + {t}, replicas)
    {
      if pid in Reached(types, replicas) {
        var u :| u in types && pid in Serving(replicas, u);
        assert u in types + {t};
      } else {
        assert t in types + {t};
      }
    }
  }

  // ----- conservation -----

  function ServedCount(names: seq<string>, replicas: Replicas): string -> real {
    t => if Serving(replicas, t) != {} then Count(names, t) as real else 0.0
  }

  /** Counting by type counts every served task once, over any set of types that covers the batch. */
  lemma {:induction false} ServedByType(names: seq<string>, replicas: Replicas, types: set<string>)
    requires Types(names) <= types
    ensures SetSum(types, ServedCount(names, replicas)) == Served(names, replicas) as real
  {
    if names == [] {
      SetSumConstant(types, ServedCount(names, replicas), 0.0);
    } else {
      var t := names[0];
      assert t in Types(names);
      forall u | u in Types(names[1..])
        ensures u in types
      {
        assert u in names;
      }
      ServedByType(names[1..], replicas, types);
      SetSumRemove(types, t, ServedCount(names, replicas));
      SetSumRemove(types, t, ServedCount(names[1..], replicas));
      SetSumCongruent(types - {t}, ServedCount(names, replicas), ServedCount(names[1..], replicas));
    }
  }

  lemma DividedEvenly(n: real, x: real)
    requires n > 0.0
    ensures Times(n, x / n) == x
  {
  }

  /** A type with replicas hands out exactly its share of the rate. */
  lemma TypeConserves(names: seq<string>, replicas: Replicas, rate: real, t: string)
    requires t in Types(names)
    ensures SetSum(Reached(Types(names), replicas), Row(Flip(Flow(names, replicas, rate)), t))
         == if Serving(replicas, t) != {} then Times(rate, Share(names, t)) else 0.0
  {
    hide Times, Share;
    var flow := Row(Flip(Flow(names, replicas, rate)), t);
    var pids := Serving(replicas, t);
    forall pid | pid in pids
      ensures pid in Reached(Types(names), replicas)
    {
      assert t in Types(names) && pid in Serving(replicas, t);
    }
    SetSumPad(pids, Reached(Types(names), replicas), flow);
    if pids != {} {
      SetSumConstant(pids, flow, PerReplica(names, replicas, rate, t));
      DividedEvenly(|pids| as real, Times(rate, Share(names, t)));
      TimesIs(|pids| as real, PerReplica(names, replicas, rate, t));
    }
  }

  /** A replica gets the rate times the type's count, over all names and all replicas of the type. */
  lemma PerReplicaIs(names: seq<string>, replicas: Replicas, rate: real, t: string)
    requires names != [] && Serving(replicas, t) != {}
    ensures Times(Times(PerReplica(names, replicas, rate, t), |Serving(replicas, t)| as real), |names| as real)
         == Times(rate, Count(names, t) as real)
  {
    hide Times;
    PartOfPart(rate, Count(names, t) as real, |names| as real, |Serving(replicas, t)| as real);
  }

  lemma PartOfPart(rate: real, c: real, n: real, m: real)
    requires n > 0.0 && m > 0.0
    ensures Times(Times(Times(rate, Times(c, 1.0 / n)) / m, m), n) == Times(rate, c)
  {
    var unit := 1.0 / n;
    assert unit * n == 1.0;
    TimesQuotient(rate * (c * unit), m);
    assert (rate * (c * unit)) * n == rate * c * (unit * n);
  }

  lemma TimesAssociative(x: real, y: real, z: real)
    ensures Times(x, Times(y, z)) == Times(Times(x, z), y)
  {
  }

  /** The rates of all platforms add up to the arrival rate times the fraction of tasks whose type has a replica,
      however the replica sets overlap. */
  lemma RatesConserve(names: seq<string>, replicas: Replicas, rate: real)
    ensures SetSum(Reached(Types(names), replicas), Rate(names, replicas, rate))
         == Times(Times(rate, Unit(names)), Served(names, replicas) as real)
  {
    hide Times;
    var flow := Flow(names, replicas, rate);
    var types, pids := Types(names), Reached(Types(names), replicas);
    var unit := Times(rate, Unit(names));
    SetSumExchange(pids, types, flow);
    forall t | t in types
      ensures SetRowSum(Flip(flow), pids)(t) == Times(unit, ServedCount(names, replicas)(t))
    {
      TypeConserves(names, replicas, rate, t);
      TimesAssociative(rate, Count(names, t) as real, Unit(names));
      Distribute(unit, 0.0, 0.0);
    }
    SetSumScale(types, SetRowSum(Flip(flow), pids), unit, ServedCount(names, replicas));
    ServedByType(names, replicas, types);
  }

  lemma {:induction false} AllServed(names: seq<string>, replicas: Replicas)
    requires forall t | t in names :: Serving(replicas, t) != {}
    ensures Served(names, replicas) == |names|
  {
    if names != [] {
      AllServed(names[1..], replicas);
    }
  }

  /** When every type has a replica, nothing of the arrival rate is lost. */
  lemma RatesConserveAll(names: seq<string>, replicas: Replicas, rate: real)
    requires names != [] && forall t | t in names :: Serving(replicas, t) != {}
    ensures SetSum(Reached(Types(names), replicas), Rate(names, replicas, rate)) == rate
  {
    hide Times;
    RatesConserve(names, replicas, rate);
    AllServed(names, replicas);
    UnitTimes(rate, |names| as real);
  }

  lemma UnitTimes(rate: real, n: real)
    requires n > 0.0
    ensures Times(Times(rate, 1.0 / n), n) == rate
  {
    assert (rate * (1.0 / n)) * n == rate * ((1.0 / n) * n);
  }

  // ----- the loops -----

  function LookupShare(m: map<string, real>, t: string): real {
    if t in m then m[t] else 0.0
  }

  method TypeShares(names: seq<string>) returns (share: map<string, real>)
    ensures share.Keys == Types(names)
    ensures forall t | t in share :: share[t] == Share(names, t)
  {
    hide Times;
    share := map[];
    StepTimes(0.0, Unit(names));
    for i := 0 to |names|
      invariant share.Keys == Types(names[..i])
      invariant forall t :: LookupShare(share, t) == Times(Count(names[..i], t) as real, Unit(names))
    {
      var name := names[i];
      assert names[..i + 1] == names[..i] + [name];
      forall t {
        CountSnoc(names[..i], name, t);
      }
      StepTimes(Count(names[..i], name) as real, Unit(names));
      share := share[name := LookupShare(share, name) + Unit(names)];
    }
    assert names[..|names|] == names;
  }

  lemma StepTimes(c: real, u: real)
    ensures Times(c + 1.0, u) == Times(c, u) + u
    ensures Times(0.0, u) == 0.0
  {
  }

  /** lam holds the flows of the visited types, and of the type t for the replicas visited so far. */
  ghost predicate Holds(lam: map<Platform, real>, flow: (Platform, string) -> real, types: set<string>, t: string,
                        done: set<Platform>)
  {
    forall pid :: Lookup(lam)(pid) == SetSum(types, Row(flow, pid)) + if pid in done then flow(pid, t) else 0.0
  }

  /** One type's share, divided over its replicas; a type without replicas is skipped. */
  method SplitType(lam0: map<Platform, real>, names: seq<string>, replicas: Replicas, rate: real,
                   t: string, share: real, ghost seen: set<string>)
      returns (lam: map<Platform, real>)
    requires t !in seen && share == Share(names, t)
    requires Holds(lam0, Flow(names, replicas, rate), seen, "", {})
    ensures forall p :: p in lam <==> p in lam0 || p in Serving(replicas, t)
    ensures Holds(lam, Flow(names, replicas, rate), seen + {t}, "", {})
  {
    hide Holds, Flow, Share, Times, Serving, Lookup;
    ghost var flow := Flow(names, replicas, rate);
    var pids := Serving(replicas, t);
    FlowOfType(names, replicas, rate, t);
    HoldsNewType(lam0, flow, seen, t);
    lam := lam0;
    if pids != {} {
      var perReplica := Times(rate, share) / |pids| as real;
      lam := AddToAll(lam, pids, perReplica, flow, seen, t);
    }
    FlowSeen(lam, flow, seen, t, pids);
  }

  method ArrivalRates(names: seq<string>, replicas: Replicas, arrivalRate: real)
      returns (r: Result<map<Platform, real>>)
    ensures r.Err? <==> arrivalRate <= 0.0
    ensures r.Ok? ==> r.value.Keys == Reached(Types(names), replicas)
    ensures r.Ok? ==> forall pid :: Lookup(r.value)(pid) == Rate(names, replicas, arrivalRate)(pid)
  {
    if arrivalRate <= 0.0 {
      return Err;
    }
    ReachedNone(replicas);
    hide Holds, Flow, Share, Times, Serving, Reached, Rate, Lookup;
    var share := TypeShares(names);
    var lam: map<Platform, real> := map[];
    var todo := share.Keys;
    ghost var seen: set<string> := {};
    HoldsAtStart(Flow(names, replicas, arrivalRate));
    while todo != {}
      invariant todo !! seen && todo + seen == Types(names)
      invariant forall p :: p in lam <==> p in Reached(seen, replicas)
      invariant Holds(lam, Flow(names, replicas, arrivalRate), seen, "", {})
    {
      var t :| t in todo;
      ReachedNext(seen, t, replicas);
      lam := SplitType(lam, names, replicas, arrivalRate, t, share[t], seen);
      todo := todo - {t};
      seen := seen + {t};
    }
    assert seen == Types(names);
    assert lam.Keys == Reached(Types(names), replicas);
    HoldsIsRate(lam, names, replicas, arrivalRate);
    return Ok(lam);
  }

  lemma HoldsAtStart(flow: (Platform, string) -> real)
    ensures Holds(map[], flow, {}, "", {})
  {
  }

  lemma HoldsNewType(lam: map<Platform, real>, flow: (Platform, string) -> real, seen: set<string>, t: string)
    requires Holds(lam, flow, seen, "", {})
    ensures Holds(lam, flow, seen, t, {})
  {
  }

  lemma HoldsIsRate(lam: map<Platform, real>, names: seq<string>, replicas: Replicas, rate: real)
    requires Holds(lam, Flow(names, replicas, rate), Types(names), "", {})
    ensures forall pid :: Lookup(lam)(pid) == Rate(names, replicas, rate)(pid)
  {
  }

  lemma FlowOfType(names: seq<string>, replicas: Replicas, rate: real, t: string)
    ensures var flow, pids := Flow(names, replicas, rate), Serving(replicas, t);
      && (forall pid | pid !in pids :: flow(pid, t) == 0.0)
      && (pids != {} ==> forall pid | pid in pids :: flow(pid, t) == Times(rate, Share(names, t)) / |pids| as real)
  {
  }

  lemma FlowSeen(lam: map<Platform, real>, flow: (Platform, string) -> real, seen: set<string>, t: string,
                 pids: set<Platform>)
    requires t !in seen && Holds(lam, flow, seen, t, pids)
    requires forall pid | pid !in pids :: flow(pid, t) == 0.0
    ensures Holds(lam, flow, seen + {t}, "", {})
  {
    forall pid
      ensures SetSum(seen + {t}, Row(flow, pid)) == SetSum(seen, Row(flow, pid)) + flow(pid, t)
    {
      SetSumAdd(seen, t, Row(flow, pid));
    }
  }

  lemma HoldsNext(lam: map<Platform, real>, flow: (Platform, string) -> real, seen: set<string>, t: string,
                  done: set<Platform>, pid: Platform)
    requires pid !in done && Holds(lam, flow, seen, t, done)
    ensures Holds(lam[pid := Lookup(lam)(pid) + flow(pid, t)], flow, seen, t, done + {pid})
  {
  }

  /** The inner loop: every replica of the type receives the same rate. */
  method AddToAll(lam0: map<Platform, real>, pids: set<Platform>, perReplica: real,
                  ghost flow: (Platform, string) -> real, ghost seen: set<string>, ghost t: string)
      returns (lam: map<Platform, real>)
    requires Holds(lam0, flow, seen, t, {})
    requires forall pid | pid in pids :: flow(pid, t) == perReplica
    ensures forall p :: p in lam <==> p in lam0 || p in pids
    ensures Holds(lam, flow, seen, t, pids)
  {
    hide Holds;
    lam := lam0;
    var rest := pids;
    ghost var done: set<Platform> := {};
    while rest != {}
      invariant rest !! done && rest + done == pids
      invariant forall p :: p in lam <==> p in lam0 || p in done
      invariant Holds(lam, flow, seen, t, done)
    {
      var pid :| pid in rest;
      HoldsNext(lam, flow, seen, t, done, pid);
      lam := lam[pid := Lookup(lam)(pid) + perReplica];
      rest := rest - {pid};
      done := done + {pid};
    }
    assert done == pids;
  }
}
