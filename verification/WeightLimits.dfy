/** On which fleets the shortest-queue rule always has the least externality, whatever the queues and the batch. */
module WeightLimits {
  import opened Balance
  import opened DepthLimits
  import opened Externality
  import opened NestedPools
  import opened ReactiveRule
  import opened Reals
  import opened Scheduler
  import opened Sums
  import opened Wrappers

  /** Platforms with their queues, the task types they serve, and a context for their rates and drains. */
  datatype Fleet = Fleet(sites: set<Platform>, keyOf: Platform -> string, types: set<string>, ctx: Context) {
    ghost predicate Valid() {
      && (forall p, q | p in sites && q in sites :: keyOf(p) == keyOf(q) ==> p == q)
      && (forall t, p | t in types && p in sites :: ctx.DrainOf(t, p).Ok? && Drain(t, p) >= 0.0)
    }

    function Drain(t: string, p: Platform): real {
      ValueOr(ctx.DrainOf(t, p))
    }

    /** Arrival rate times the drains of a queued and of an arriving task. */
    function Weight(queued: string, arriving: string, p: Platform): real {
      Times(Rate(ctx, p), Times(Drain(queued, p), Drain(arriving, p)))
    }

    /** Arrival rate times squared drain is one number for all types on all platforms. */
    ghost predicate Uniform() {
      forall t, u, p, q | t in types && u in types && p in sites && q in sites :: Weight(t, t, p) == Weight(u, u, q)
    }
  }

  /** One decision: its batch, the task types of the dataset and the tasks queued at the platforms. */
  datatype Capture = Capture(tasks: seq<Task>, cosimIdOf: map<int, nat>, names: seq<string>,
                             queued: map<(string, Platform), int>)

  /** The fleet as this decision finds it. */
  function ContextOf(f: Fleet, c: Capture): Context {
    f.ctx.(taskTypeNames := c.names, backlogCounts := c.queued, seededBacklog := None)
  }

  function QueuedAt(c: Capture, p: Platform): ((string, Platform)) -> real {
    (q: (string, Platform)) => if q in c.queued && q.1 == p && c.queued[q] > 0 then c.queued[q] as real else 0.0
  }

  /** Every candidate that may be chosen sits on a platform of the fleet and carries its queue. */
  ghost predicate OnFleet(f: Fleet, c: Capture) {
    forall t, d | t in c.tasks && d in Pool(t.candidates) :: d.platform in f.sites && d.queueKey == f.keyOf(d.platform)
  }

  ghost predicate Typed(f: Fleet, c: Capture, ids: seq<nat>) {
    && (forall i, j | 0 <= i < j < |ids| :: ids[i] != ids[j])
    && (forall i | 0 <= i < |ids| :: ids[i] < |c.names| && c.names[ids[i]] in f.types)
  }

  /** The recorded lengths count the tasks queued, which are of the fleet's types. */
  ghost predicate CountsQueues(f: Fleet, c: Capture) {
    && (forall q | q in c.queued && c.queued[q] > 0 && q.1 in f.sites :: q.0 in f.types)
    && (forall p | p in f.sites && Listed(Seen(c.tasks), f.keyOf(p)) ::
          Start(c.tasks)(f.keyOf(p)) as real == SetSum(c.queued.Keys, QueuedAt(c, p)))
  }

  /** A decision on this fleet, with pools that nest. */
  ghost predicate Captures(f: Fleet, c: Capture) {
    && Ready(c.tasks, c.cosimIdOf) && Nested(PoolsOf(c.tasks)) && OnFleet(f, c) && CountsQueues(f, c)
    && Typed(f, c, CosimIds(c.tasks, c.cosimIdOf))
  }

  /** The decision as a batch, on the platforms whose queues were listed. */
  ghost function BatchOf(f: Fleet, c: Capture, drain: Platform -> real, weight: real): Batch
    requires Ready(c.tasks, c.cosimIdOf)
  {
    var offered := set p | p in f.sites && Listed(Seen(c.tasks), f.keyOf(p));
    Batch(CosimIds(c.tasks, c.cosimIdOf), offered, f.keyOf,
          Start(c.tasks), ContextOf(f, c), Backlog(ContextOf(f, c)), drain, weight)
  }

  /** A plan that puts every task on a platform of its pool. */
  ghost predicate Assigns(f: Fleet, c: Capture, plan: Plan)
    requires Ready(c.tasks, c.cosimIdOf)
  {
    var ids := CosimIds(c.tasks, c.cosimIdOf);
    && (forall id :: id in plan <==> id in ids)
    && (forall i | 0 <= i < |ids| :: plan[ids[i]].1 in f.sites && f.keyOf(plan[ids[i]].1) in PoolKeys(c.tasks[i]))
  }

  ghost function Cost(f: Fleet, c: Capture, plan: Plan): real {
    ExternalityOn(plan, ContextOf(f, c), Backlog(ContextOf(f, c)))
  }

  ghost predicate RuleIsCheapest(f: Fleet) {
    forall c, other | Captures(f, c) && Assigns(f, c, other) ::
      Cost(f, c, Pass(c.tasks, c.cosimIdOf).plan) <= Cost(f, c, other)
  }

  // ----- a uniform fleet -----

  /** Equal products with a rate mean equal drains, unless they are zero. */
  lemma SameDrain(rate: real, x: real, y: real)
    requires rate >= 0.0 && x >= 0.0 && y >= 0.0
    requires Times(rate, Times(x, x)) == Times(rate, Times(y, y)) > 0.0
    ensures x == y
  {
    assert rate > 0.0;
    assert rate * (x * x - y * y) == 0.0;
    if x * x != y * y {
      assert rate * (x * x - y * y) != 0.0;
    }
    SquareOrder(x, y);
    SquareOrder(y, x);
  }

  /** With one drain for all types, the backlog is that drain times the number of tasks queued. */
  lemma BacklogIsDepth(f: Fleet, c: Capture, p: Platform, drain: real)
    requires forall q | q in c.queued && c.queued[q] > 0 && q.1 == p :: f.Drain(q.0, p) == drain
    ensures Backlog(ContextOf(f, c))(p) == Times(drain, SetSum(c.queued.Keys, QueuedAt(c, p)))
  {
    var ctx := ContextOf(f, c);
    forall q | q in c.queued
      ensures QueuedOn(ctx, p)(q) == Times(drain, QueuedAt(c, p)(q))
    {
      Distribute(drain, 0.0, 0.0);
      assert ctx.DrainOf(q.0, p) == f.ctx.DrainOf(q.0, p);
      if c.queued[q] > 0 && q.1 == p {
        TimesCommute(c.queued[q] as real, drain);
      }
    }
    SetSumScale(c.queued.Keys, QueuedOn(ctx, p), drain, QueuedAt(c, p));
  }

  lemma TimesCommute(x: real, y: real)
    ensures Times(x, y) == Times(y, x)
  {
  }

  function DrainsOf(f: Fleet, t: string): Platform -> real {
    p => f.Drain(t, p)
  }

  lemma OneDrain(f: Fleet, t: string, u: string, p: Platform)
    requires f.Valid() && f.Uniform() && t in f.types && u in f.types && p in f.sites && f.Weight(t, t, p) > 0.0
    ensures f.ctx.DrainOf(u, p) == Ok(f.Drain(t, p)) && f.Drain(u, p) == f.Drain(t, p) >= 0.0
  {
    assert f.Weight(u, u, p) == f.Weight(t, t, p);
    SameDrain(Rate(f.ctx, p), f.Drain(u, p), f.Drain(t, p));
  }

  /** Where the weight is positive, the decision is an even batch. */
  lemma UniformIsEven(f: Fleet, c: Capture, t: string, weight: real)
    requires f.Valid() && f.Uniform() && Captures(f, c) && t in f.types && weight > 0.0
    requires forall p | p in f.sites :: f.Weight(t, t, p) == weight
    ensures BatchOf(f, c, DrainsOf(f, t), weight).Even()
  {
    hide PoolsOf, Nested, Start, Listed, Seen, Fleet.Uniform, QueuedAt, Times, Pool;
    var b := BatchOf(f, c, DrainsOf(f, t), weight);
    forall p | p in b.sites
      ensures b.drain(p) >= 0.0 && b.Weight(p) == weight
      ensures b.backlog(p) == Times(b.drain(p), b.base(b.keyOf(p)) as real)
    {
      OneDrain(f, t, t, p);
      forall q | q in c.queued && c.queued[q] > 0 && q.1 == p
        ensures f.Drain(q.0, p) == f.Drain(t, p)
      {
        OneDrain(f, t, q.0, p);
      }
      BacklogIsDepth(f, c, p, f.Drain(t, p));
    }
    forall id, p | id in b.ids && p in b.sites
      ensures b.ctx.Work(id, p) == Ok(b.drain(p))
    {
      OneDrain(f, t, c.names[id], p);
    }
  }

  /** What the candidates of a decision offer, as its batch sees it. */
  lemma BatchOffers(f: Fleet, c: Capture, drain: Platform -> real, weight: real)
    requires f.Valid() && Captures(f, c)
    ensures BatchOf(f, c, drain, weight).Distinct() && Offers(c.tasks, BatchOf(f, c, drain, weight))
  {
    hide PoolsOf, Nested, Start, Seen, QueuedAt, Pool, Context.DrainOf, FirstLength, CountsQueues;
    var b := BatchOf(f, c, drain, weight);
    forall t, d | t in c.tasks && d in Pool(t.candidates)
      ensures d.platform in b.sites && d.queueKey == b.keyOf(d.platform)
    {
      SeenOffers(c.tasks, t, d);
    }
  }

  /** A plan that assigns the tasks is one that places the batch, on queues of the pools. */
  lemma AssignsIsPlaces(f: Fleet, c: Capture, drain: Platform -> real, weight: real, plan: Plan)
    requires Ready(c.tasks, c.cosimIdOf) && Assigns(f, c, plan)
    ensures var b := BatchOf(f, c, drain, weight); b.Places(plan) && Allowed(b.RunOf(plan), PoolsOf(c.tasks))
  {
    hide PoolKeys, Listed, Seen, FirstLength, ContextOf, Backlog, Ready;
    var b := BatchOf(f, c, drain, weight);
    forall i | 0 <= i < |b.ids|
      ensures plan[b.ids[i]].1 in b.sites
    {
      PoolIsListed(c.tasks, c.tasks[i], f.keyOf(plan[b.ids[i]].1));
    }
  }

  /** The other way round. */
  lemma PlacesIsAssigns(f: Fleet, c: Capture, drain: Platform -> real, weight: real, plan: Plan)
    requires Ready(c.tasks, c.cosimIdOf)
    requires var b := BatchOf(f, c, drain, weight); b.Places(plan) && Allowed(b.RunOf(plan), PoolsOf(c.tasks))
    ensures Assigns(f, c, plan)
  {
    hide PoolKeys, Listed, Seen, FirstLength, ContextOf, Backlog, Ready;
    var b := BatchOf(f, c, drain, weight);
    forall i | 0 <= i < |b.ids|
      ensures plan[b.ids[i]].1 in f.sites && f.keyOf(plan[b.ids[i]].1) in PoolKeys(c.tasks[i])
    {
      assert b.ids[i] in b.ids && plan[b.ids[i]].1 in b.sites;
      assert b.RunOf(plan)[i] in PoolsOf(c.tasks)[i];
    }
  }

  /** The rule's own plan assigns the tasks. */
  lemma RuleAssigns(f: Fleet, c: Capture)
    requires f.Valid() && Captures(f, c)
    ensures Assigns(f, c, Pass(c.tasks, c.cosimIdOf).plan)
  {
    var b := BatchOf(f, c, DrainsOf(f, ""), 0.0);
    var plan := Pass(c.tasks, c.cosimIdOf).plan;
    BatchOffers(f, c, b.drain, b.weight);
    hide Pass, Offers, OnFleet, Nested, Ready, Batch.Distinct, Batch.Places, Batch.RunOf, PoolsOf, Start, Typed;
    PlanFollowsRun(c.tasks, c.cosimIdOf, b);
    StartAgrees(c.tasks);
    PassIsGreedy(c.tasks, c.cosimIdOf, Start(c.tasks));
    PlacesIsAssigns(f, c, b.drain, b.weight, plan);
  }

  /** And its entries sit on the queues it chose. */
  lemma RuleRuns(f: Fleet, c: Capture)
    requires f.Valid() && Captures(f, c)
    ensures var s, ids := Pass(c.tasks, c.cosimIdOf), CosimIds(c.tasks, c.cosimIdOf);
      |s.run| == |ids| && forall i | 0 <= i < |ids| :: ids[i] in s.plan && f.keyOf(s.plan[ids[i]].1) == s.run[i]
  {
    var b := BatchOf(f, c, DrainsOf(f, ""), 0.0);
    BatchOffers(f, c, b.drain, b.weight);
    hide Pass, Offers, OnFleet, Nested, Ready, Batch.Distinct, PoolsOf, Typed, Seen;
    PlanFollowsRun(c.tasks, c.cosimIdOf, b);
    assert forall i | 0 <= i < |b.ids| :: b.ids[i] in b.ids;
  }

  lemma NoWeightNoWork(f: Fleet, c: Capture, plan: Plan, p: Platform, id: nat)
    requires id < |c.names| && f.Weight(c.names[id], c.names[id], p) == 0.0
    ensures Rate(f.ctx, p) == 0.0 || WorkOn(plan, ContextOf(f, c), p)(id) == 0.0
  {
    ZeroProduct(Rate(f.ctx, p), f.Drain(c.names[id], p));
    assert ContextOf(f, c).Work(id, p) == f.ctx.DrainOf(c.names[id], p);
  }

  ghost predicate Weightless(f: Fleet) {
    forall t, p | t in f.types && p in f.sites :: f.Weight(t, t, p) == 0.0
  }

  /** All tasks of the plan are of the fleet's types and on its platforms. */
  ghost predicate OfFleet(f: Fleet, c: Capture, plan: Plan) {
    forall id | id in plan :: id < |c.names| && c.names[id] in f.types && plan[id].1 in f.sites
  }

  lemma AssignedTypes(f: Fleet, c: Capture, plan: Plan)
    requires Ready(c.tasks, c.cosimIdOf) && Typed(f, c, CosimIds(c.tasks, c.cosimIdOf)) && Assigns(f, c, plan)
    ensures OfFleet(f, c, plan)
  {
    hide Ready, PoolKeys;
  }

  /** Where nothing has weight, a plan inflicts nothing on any platform. */
  lemma NoWeightNoCharge(f: Fleet, c: Capture, plan: Plan, p: Platform)
    requires Weightless(f) && OfFleet(f, c, plan) && p in f.sites
    ensures var ctx := ContextOf(f, c); ChargeOn(ctx, Backlog(ctx), Added(plan, ctx))(p) == 0.0
  {
    hide Backlog, Fleet.Weight, WorkOn;
    var ctx := ContextOf(f, c);
    assert Rate(f.ctx, p) == Rate(ctx, p);
    if Rate(ctx, p) != 0.0 {
      forall id | id in plan
        ensures WorkOn(plan, ctx, p)(id) == 0.0
      {
        NoWeightNoWork(f, c, plan, p, id);
      }
      SetSumConstant(plan.Keys, WorkOn(plan, ctx, p), 0.0);
    }
  }

  lemma NoWeightNoCost(f: Fleet, c: Capture, plan: Plan)
    requires Weightless(f) && OfFleet(f, c, plan)
    ensures Cost(f, c, plan) == 0.0
  {
    hide Weightless, Backlog, ContextOf, ChargeOn, Added;
    var ctx := ContextOf(f, c);
    forall p | p in Platforms(plan)
      ensures ChargeOn(ctx, Backlog(ctx), Added(plan, ctx))(p) == 0.0
    {
      NoWeightNoCharge(f, c, plan, p);
    }
    SetSumConstant(Platforms(plan), ChargeOn(ctx, Backlog(ctx), Added(plan, ctx)), 0.0);
  }

  lemma ZeroProduct(rate: real, x: real)
    requires Times(rate, Times(x, x)) == 0.0
    ensures rate == 0.0 || x == 0.0
  {
    if x != 0.0 {
      var size := if x < 0.0 then -x else x;
      PositiveTimes(size, size);
      assert x * x == size * size;
      TimesQuotient(rate * (x * x), x * x);
    }
  }

  lemma UniformIsCheapest(f: Fleet, c: Capture, other: Plan)
    requires f.Valid() && f.Uniform() && Captures(f, c) && Assigns(f, c, other)
    ensures Cost(f, c, Pass(c.tasks, c.cosimIdOf).plan) <= Cost(f, c, other)
  {
    var plan := Pass(c.tasks, c.cosimIdOf).plan;
    var ids := CosimIds(c.tasks, c.cosimIdOf);
    RuleAssigns(f, c);
    if ids == [] {
      assert plan == map[] && other == map[];
    } else {
      var t, p := c.names[ids[0]], other[ids[0]].1;
      var weight := f.Weight(t, t, p);
      WeightSign(f, t, p);
      if weight == 0.0 {
        assert Weightless(f);
        AssignedTypes(f, c, plan);
        AssignedTypes(f, c, other);
        NoWeightNoCost(f, c, plan);
        NoWeightNoCost(f, c, other);
      } else {
        hide Fleet.Valid, Fleet.Uniform, Fleet.Weight, Pass, Captures, Assigns, ExternalityOn;
        ConstantWeight(f, t, p);
        UniformIsEven(f, c, t, weight);
        BatchOffers(f, c, DrainsOf(f, t), weight);
        AssignsIsPlaces(f, c, DrainsOf(f, t), weight, other);
        RuleOnBatch(f, c, DrainsOf(f, t), weight, other);
      }
    }
  }

  lemma ConstantWeight(f: Fleet, t: string, p: Platform)
    requires f.Uniform() && t in f.types && p in f.sites
    ensures forall q | q in f.sites :: f.Weight(t, t, q) == f.Weight(t, t, p)
  {
  }

  lemma RuleOnBatch(f: Fleet, c: Capture, drain: Platform -> real, weight: real, other: Plan)
    requires Captures(f, c)
    requires var b := BatchOf(f, c, drain, weight);
      b.Even() && Offers(c.tasks, b) && b.Places(other) && Allowed(b.RunOf(other), PoolsOf(c.tasks))
    ensures Cost(f, c, Pass(c.tasks, c.cosimIdOf).plan) <= Cost(f, c, other)
  {
    hide Batch.Even, Batch.Places, Batch.RunOf, Offers, PoolsOf, Nested, Pass, Allowed, ExternalityOn;
    ShortestQueueMinimisesExternality(c.tasks, c.cosimIdOf, BatchOf(f, c, drain, weight), other);
  }

  lemma WeightSign(f: Fleet, t: string, p: Platform)
    requires f.Valid() && t in f.types && p in f.sites
    ensures f.Weight(t, t, p) >= 0.0
  {
    NonNegativeTimes(f.Drain(t, p), f.Drain(t, p));
    NonNegativeTimes(Rate(f.ctx, p), Times(f.Drain(t, p), f.Drain(t, p)));
  }

  // ----- one platform -----

  /** Only the platforms of a plan matter. */
  lemma SamePlatformsSameCost(f: Fleet, c: Capture, plan: Plan, other: Plan)
    requires plan.Keys == other.Keys && forall id | id in plan :: plan[id].1 == other[id].1
    ensures Cost(f, c, plan) == Cost(f, c, other)
  {
    hide Backlog, Charge;
    var ctx := ContextOf(f, c);
    assert Platforms(plan) == Platforms(other);
    forall p
      ensures Added(plan, ctx)(p) == Added(other, ctx)(p)
    {
      SetSumCongruent(plan.Keys, WorkOn(plan, ctx, p), WorkOn(other, ctx, p));
    }
    SetSumCongruent(Platforms(plan), ChargeOn(ctx, Backlog(ctx), Added(plan, ctx)),
                    ChargeOn(ctx, Backlog(ctx), Added(other, ctx)));
  }

  ghost predicate OnePlatform(f: Fleet) {
    forall p, q | p in f.sites && q in f.sites :: p == q
  }

  lemma SameTasks(f: Fleet, c: Capture, plan: Plan, other: Plan)
    requires Ready(c.tasks, c.cosimIdOf) && Assigns(f, c, plan) && Assigns(f, c, other)
    ensures plan.Keys == other.Keys
  {
    hide Ready, PoolKeys;
  }

  lemma OnePlatformIsCheapest(f: Fleet, c: Capture, other: Plan)
    requires f.Valid() && OnePlatform(f) && Captures(f, c) && Assigns(f, c, other)
    ensures Cost(f, c, Pass(c.tasks, c.cosimIdOf).plan) <= Cost(f, c, other)
  {
    var plan := Pass(c.tasks, c.cosimIdOf).plan;
    RuleAssigns(f, c);
    AssignedTypes(f, c, plan);
    AssignedTypes(f, c, other);
    SameTasks(f, c, plan, other);
    hide Cost, Captures, Assigns, Pass, Fleet.Valid;
    SamePlatformsSameCost(f, c, plan, other);
  }

  // ----- a fleet that is not uniform -----

  /** One task of type s is to be placed. Queue p holds n tasks of type s, every other queue n + 1 of type t. */
  datatype Trap = Trap(s: string, t: string, p: Platform, n: nat) {
    function Type(x: Platform): string {
      if x == p then s else t
    }

    function Length(x: Platform): nat {
      if x == p then n else n + 1
    }

    function Lengths(f: Fleet): string -> int {
      k => if k == f.keyOf(p) then n else n + 1
    }

    function Queued(f: Fleet): map<(string, Platform), int> {
      map x | x in f.sites :: (Type(x), x) := Length(x) as int
    }
  }

  /** The decision of a trap: all platforms are warm and offered. */
  ghost predicate Sets(f: Fleet, trap: Trap, c: Capture) {
    && c.names == [trap.s] && c.queued == trap.Queued(f) && c.cosimIdOf == map[0 := 0]
    && |c.tasks| == 1 && c.tasks[0].traceId == 0 && c.tasks[0].candidates != []
    && Reports(c.tasks[0], trap.Lengths(f))
    && PoolKeys(c.tasks[0]) == (set x | x in f.sites :: f.keyOf(x))
    && forall d | d in c.tasks[0].candidates :: d.platform in f.sites && d.queueKey == f.keyOf(d.platform)
  }

  lemma Setting(f: Fleet, trap: Trap) returns (c: Capture)
    requires trap.p in f.sites
    ensures Sets(f, trap, c)
  {
    var all := set x | x in f.sites :: (f.keyOf(x), x);
    var offers := Listing(all);
    assert (f.keyOf(trap.p), trap.p) in offers;
    WarmOffers(0, offers, trap.Lengths(f));
    var task := WarmTask(0, offers, trap.Lengths(f));
    c := Capture([task], map[0 := 0], [trap.s], trap.Queued(f));
    forall k
      ensures k in PoolKeys(task) <==> exists x :: x in f.sites && f.keyOf(x) == k
    {
      if x :| x in f.sites && f.keyOf(x) == k {
        assert (f.keyOf(x), x) in offers;
      }
    }
  }

  lemma {:induction false} SumAtOne<K>(s: set<K>, k: K, g: K -> real)
    requires k in s && forall j | j in s && j != k :: g(j) == 0.0
    ensures SetSum(s, g) == g(k)
  {
    SetSumPad({k}, s, g);
    SetSumAdd({}, k, g);
    assert {} + {k} == {k};
  }

  /** What stands in the queue of x. */
  lemma QueueOf(f: Fleet, trap: Trap, c: Capture, x: Platform)
    requires Sets(f, trap, c) && x in f.sites
    ensures SetSum(c.queued.Keys, QueuedAt(c, x)) == trap.Length(x) as real
    ensures Backlog(ContextOf(f, c))(x) == Times(trap.Length(x) as real, f.Drain(trap.Type(x), x))
  {
    hide PoolKeys, Reports, Context.DrainOf, Times;
    var k := (trap.Type(x), x);
    assert c.queued[k] == trap.Length(x);
    SumAtOne(c.queued.Keys, k, QueuedAt(c, x));
    SumAtOne(c.queued.Keys, k, QueuedOn(ContextOf(f, c), x));
    SameDrains(f, c, trap.Type(x), x);
    NothingQueued(f.Drain(trap.Type(x), x));
  }

  lemma SameDrains(f: Fleet, c: Capture, t: string, x: Platform)
    ensures ContextOf(f, c).DrainOf(t, x) == f.ctx.DrainOf(t, x)
  {
  }

  lemma NothingQueued(drain: real)
    ensures Times(0.0, drain) == 0.0
  {
  }

  /** The single task as a batch of one. */
  lemma OneTask(f: Fleet, trap: Trap, c: Capture)
    requires Sets(f, trap, c)
    ensures Ready(c.tasks, c.cosimIdOf) && CosimIds(c.tasks, c.cosimIdOf) == [0]
    ensures Nested(PoolsOf(c.tasks)) && PoolsOf(c.tasks) == [PoolKeys(c.tasks[0])]
  {
    hide PoolKeys, Reports;
    assert 0 in c.cosimIdOf && c.cosimIdOf[0] == 0;
  }

  lemma TrapStart(f: Fleet, trap: Trap, c: Capture, x: Platform)
    requires f.Valid() && Sets(f, trap, c) && x in f.sites && trap.p in f.sites
    ensures Start(c.tasks)(f.keyOf(x)) == trap.Length(x)
  {
    hide Reports, Context.DrainOf, Start;
    StartIsReported(c.tasks, trap.Lengths(f), c.tasks[0], f.keyOf(x));
  }

  lemma TrapIsCapture(f: Fleet, trap: Trap, c: Capture)
    requires f.Valid() && Sets(f, trap, c) && trap.p in f.sites && trap.s in f.types && trap.t in f.types
    ensures Captures(f, c)
  {
    OneTask(f, trap, c);
    assert OnFleet(f, c);
    hide PoolKeys, PoolsOf, Nested, Reports, Start, Listed, Pool, QueuedAt, OnFleet;
    forall x | x in f.sites
      ensures Start(c.tasks)(f.keyOf(x)) as real == SetSum(c.queued.Keys, QueuedAt(c, x))
    {
      TrapStart(f, trap, c, x);
      QueueOf(f, trap, c, x);
    }
  }

  /** The rule takes the shorter queue. */
  lemma TrapRun(f: Fleet, trap: Trap, c: Capture)
    requires f.Valid() && Sets(f, trap, c) && trap.p in f.sites && Ready(c.tasks, c.cosimIdOf)
    ensures Pass(c.tasks, c.cosimIdOf).run == [f.keyOf(trap.p)]
  {
    var run := Pass(c.tasks, c.cosimIdOf).run;
    OneTask(f, trap, c);
    hide Pass, Reports, Start, Greedy, PoolKeys, PoolsOf, Nested, Context.DrainOf;
    StartAgrees(c.tasks);
    PassIsGreedy(c.tasks, c.cosimIdOf, Start(c.tasks));
    GreedyAlone(run, PoolsOf(c.tasks), Start(c.tasks));
    var x :| x in f.sites && f.keyOf(x) == run[0];
    assert f.keyOf(trap.p) in PoolKeys(c.tasks[0]);
    TrapStart(f, trap, c, x);
    TrapStart(f, trap, c, trap.p);
  }

  lemma TrapCatches(f: Fleet, trap: Trap, c: Capture)
    requires f.Valid() && Sets(f, trap, c) && Captures(f, c) && trap.p in f.sites
    ensures var plan := Pass(c.tasks, c.cosimIdOf).plan; plan.Keys == {0} && plan[0].1 == trap.p
  {
    var plan := Pass(c.tasks, c.cosimIdOf).plan;
    OneTask(f, trap, c);
    TrapRun(f, trap, c);
    RuleAssigns(f, c);
    RuleRuns(f, c);
    hide *;
    AssignsOne(f, c, plan);
    OnQueue(f, plan[0].1, trap.p);
  }

  lemma AssignsOne(f: Fleet, c: Capture, plan: Plan)
    requires Ready(c.tasks, c.cosimIdOf) && CosimIds(c.tasks, c.cosimIdOf) == [0] && Assigns(f, c, plan)
    ensures plan.Keys == {0} && plan[0].1 in f.sites
  {
    hide PoolKeys, Ready;
    assert CosimIds(c.tasks, c.cosimIdOf)[0] == 0;
  }

  lemma OnQueue(f: Fleet, x: Platform, p: Platform)
    requires f.Valid() && x in f.sites && p in f.sites && f.keyOf(x) == f.keyOf(p)
    ensures x == p
  {
  }

  /** (b + e)^2 - b^2 for a backlog of m tasks with drain d. */
  lemma ChargeOfQueue(lam: real, m: real, d: real, e: real)
    requires m >= 0.0 && d >= 0.0 && e >= 0.0
    ensures var rate := Max(lam, 0.0);
      Charge(lam, Times(m, d), e) == Times(m, Times(rate, Times(d, e))) + Times(rate, Times(e, e)) / 2.0
  {
    if lam > 0.0 && e > 0.0 {
      var b := m * d;
      assert (b + e) * (b + e) - b * b == 2.0 * (b * e) + e * e;
      assert 0.5 * lam * (2.0 * (b * e) + e * e) == lam * (b * e) + lam * (e * e) / 2.0;
      assert lam * (b * e) == m * (lam * (d * e));
    } else if lam <= 0.0 {
      assert Times(0.0, Times(d, e)) == 0.0 && Times(0.0, Times(e, e)) == 0.0 && Times(m, 0.0) == 0.0;
    } else {
      assert Times(d, 0.0) == 0.0 && Times(0.0, 0.0) == 0.0 && Times(lam, 0.0) == 0.0 && Times(m, 0.0) == 0.0;
    }
  }

  lemma TrapWork(f: Fleet, trap: Trap, c: Capture, x: Platform)
    requires f.Valid() && Sets(f, trap, c) && x in f.sites && trap.s in f.types
    ensures ContextOf(f, c).Work(0, x) == Ok(f.Drain(trap.s, x))
  {
    hide Reports, PoolKeys;
    SameDrains(f, c, trap.s, x);
  }

  /** What placing the task on x costs. */
  lemma CostOfOne(f: Fleet, trap: Trap, c: Capture, plan: Plan)
    requires f.Valid() && Sets(f, trap, c) && trap.s in f.types && trap.t in f.types
    requires plan.Keys == {0} && plan[0].1 in f.sites
    ensures var x := plan[0].1;
      Cost(f, c, plan) == Times(trap.Length(x) as real, f.Weight(trap.Type(x), trap.s, x))
                        + f.Weight(trap.s, trap.s, x) / 2.0
  {
    var x, ctx := plan[0].1, ContextOf(f, c);
    QueueOf(f, trap, c, x);
    TrapWork(f, trap, c, x);
    hide Sets, Charge, Times, Backlog, Context.Work, Context.DrainOf;
    SumAtOne(plan.Keys, 0, WorkOn(plan, ctx, x));
    assert Platforms(plan) == {x};
    SumAtOne(Platforms(plan), x, ChargeOn(ctx, Backlog(ctx), Added(plan, ctx)));
    ChargeOfQueue(ctx.Lambda(x), trap.Length(x) as real, f.Drain(trap.Type(x), x), f.Drain(trap.s, x));
  }

  /** A queue long enough for its weight to tell. */
  lemma LongEnough(a: real, g: real, a': real) returns (n: nat)
    requires 0.0 <= g < a && a' <= a
    ensures Times((n + 1) as real, g) + a' / 2.0 < Times(n as real, a) + a / 2.0
  {
    var d := a - g;
    var x := g / d;
    NonNegativeQuotient(g, d);
    n := x.Floor + 1;
    PositiveTimes(n as real - x, d);
    TimesQuotient(g, d);
    assert (n as real - x) * d == n as real * d - x * d;
    assert n as real * d == n as real * a - n as real * g;
    assert (n + 1) as real * g == n as real * g + g;
  }

  /** The rule goes for the shorter queue p although the task would inflict less behind the longer queue q. */
  lemma TrapFails(f: Fleet, trap: Trap, c: Capture, q: Platform, other: Plan)
    requires f.Valid() && trap.s in f.types && trap.t in f.types && trap.p in f.sites && q in f.sites && trap.p != q
    requires Times((trap.n + 1) as real, f.Weight(trap.t, trap.s, q)) + f.Weight(trap.s, trap.s, q) / 2.0
           < Times(trap.n as real, f.Weight(trap.s, trap.s, trap.p)) + f.Weight(trap.s, trap.s, trap.p) / 2.0
    requires Sets(f, trap, c) && other.Keys == {0} && other[0].1 == q
    ensures Captures(f, c) && Assigns(f, c, other) && Cost(f, c, other) < Cost(f, c, Pass(c.tasks, c.cosimIdOf).plan)
  {
    hide *;
    TrapIsCapture(f, trap, c);
    TrapCatches(f, trap, c);
    OneTask(f, trap, c);
    TrapAssigns(f, trap, c, other);
    CostOfOne(f, trap, c, Pass(c.tasks, c.cosimIdOf).plan);
    CostOfOne(f, trap, c, other);
    TrapCosts(trap, trap.p, q);
  }

  /** Where the mixed weight on another platform is lower, some queue lengths make a trap. */
  lemma TrapWorks(f: Fleet, s: string, t: string, p: Platform, q: Platform)
      returns (trap: Trap, c: Capture, other: Plan)
    requires f.Valid() && s in f.types && t in f.types && p in f.sites && q in f.sites && p != q
    requires f.Weight(t, s, q) < f.Weight(s, s, p) && f.Weight(s, s, q) <= f.Weight(s, s, p)
    ensures trap == Trap(s, t, p, trap.n) && Sets(f, trap, c) && other.Keys == {0} && other[0].1 == q
    ensures Captures(f, c) && Assigns(f, c, other) && Cost(f, c, other) < Cost(f, c, Pass(c.tasks, c.cosimIdOf).plan)
  {
    MixedSign(f, t, s, q);
    var n := LongEnough(f.Weight(s, s, p), f.Weight(t, s, q), f.Weight(s, s, q));
    hide *;
    trap := Trap(s, t, p, n);
    c := Setting(f, trap);
    other := map[0 := (0, q)];
    TrapFails(f, trap, c, q, other);
  }

  lemma TrapCosts(trap: Trap, p: Platform, q: Platform)
    requires trap.p == p && q != p
    ensures trap.Length(p) == trap.n && trap.Length(q) == trap.n + 1 && trap.Type(p) == trap.s && trap.Type(q) == trap.t
  {
  }

  lemma MixedSign(f: Fleet, t: string, s: string, q: Platform)
    requires f.Valid() && s in f.types && t in f.types && q in f.sites
    ensures f.Weight(t, s, q) >= 0.0
  {
    NonNegativeTimes(f.Drain(t, q), f.Drain(s, q));
    NonNegativeTimes(Rate(f.ctx, q), Times(f.Drain(t, q), f.Drain(s, q)));
  }

  lemma TrapAssigns(f: Fleet, trap: Trap, c: Capture, other: Plan)
    requires Ready(c.tasks, c.cosimIdOf) && CosimIds(c.tasks, c.cosimIdOf) == [0]
    requires Sets(f, trap, c) && other.Keys == {0} && other[0].1 in f.sites
    ensures Assigns(f, c, other)
  {
    hide Reports, Pool;
  }

  lemma SquaresRise(rate: real, x: real, y: real)
    requires rate >= 0.0 && x >= 0.0 && y >= 0.0
    ensures x <= y ==> Times(rate, Times(x, x)) <= Times(rate, Times(y, y))
  {
    if x <= y {
      NonNegativeTimes(y - x, x + y);
      assert (y - x) * (x + y) == y * y - x * x;
      NonNegativeTimes(rate, y * y - x * x);
      assert rate * (y * y - x * x) == rate * (y * y) - rate * (x * x);
    }
  }

  lemma LighterMixed(rate: real, x: real, y: real)
    requires rate >= 0.0 && x >= 0.0 && y >= 0.0
    requires Times(rate, Times(x, x)) < Times(rate, Times(y, y))
    ensures Times(rate, Times(x, y)) < Times(rate, Times(y, y))
  {
    SquaresRise(rate, y, x);
    assert y > 0.0;
    assert rate > 0.0;
    PositiveTimes(y - x, y);
    PositiveTimes(rate, (y - x) * y);
    assert (y - x) * y == y * y - x * y;
    assert rate * (y * y - x * y) == rate * (y * y) - rate * (x * y);
  }

  /** A type that weighs differently on two platforms. */
  ghost predicate Varies(f: Fleet, s: string, p: Platform, q: Platform) {
    s in f.types && p in f.sites && q in f.sites && f.Weight(s, s, q) < f.Weight(s, s, p)
  }

  /** A fleet of several platforms that is not uniform has a trap. */
  lemma NotUniformTraps(f: Fleet) returns (s: string, t: string, p: Platform, q: Platform)
    requires f.Valid() && !f.Uniform() && !OnePlatform(f)
    ensures s in f.types && t in f.types && p in f.sites && q in f.sites && p != q
    ensures f.Weight(t, s, q) < f.Weight(s, s, p) && f.Weight(s, s, q) <= f.Weight(s, s, p)
  {
    if s', p', q' :| Varies(f, s', p', q') {
      s, t, p, q := s', s', p', q';
    } else {
      var u, v, x, y :| u in f.types && v in f.types && x in f.sites && y in f.sites
        && f.Weight(u, u, x) != f.Weight(v, v, y);
      hide Fleet.Weight, Fleet.Uniform;
      assert forall z, r, r' | z in f.types && r in f.sites && r' in f.sites :: !Varies(f, z, r, r');
      p, q :| p in f.sites && q in f.sites && p != q;
      assert !Varies(f, u, x, q) && !Varies(f, u, q, x) && !Varies(f, v, y, q) && !Varies(f, v, q, y);
      s, t := u, v;
      if f.Weight(u, u, q) < f.Weight(v, v, q) {
        s, t := v, u;
      }
      assert !Varies(f, s, p, q) && !Varies(f, s, q, p);
      LighterOn(f, s, t, q);
    }
  }

  lemma LighterOn(f: Fleet, s: string, t: string, q: Platform)
    requires f.Valid() && s in f.types && t in f.types && q in f.sites && f.Weight(t, t, q) < f.Weight(s, s, q)
    ensures f.Weight(t, s, q) < f.Weight(s, s, q)
  {
    LighterMixed(Rate(f.ctx, q), f.Drain(t, q), f.Drain(s, q));
  }

  /** The rule "avoids the term without computing it" on a fleet, that is, no assignment of any batch at any queues has
      less externality, exactly when there is a single platform or when arrival rate times squared drain is the same
      for every type on every platform. */
  lemma RuleIsCheapestExactly(f: Fleet)
    requires f.Valid()
    ensures RuleIsCheapest(f) <==> OnePlatform(f) || f.Uniform()
  {
    if OnePlatform(f) || f.Uniform() {
      forall c, other | Captures(f, c) && Assigns(f, c, other)
        ensures Cost(f, c, Pass(c.tasks, c.cosimIdOf).plan) <= Cost(f, c, other)
      {
        CheapestThere(f, c, other);
      }
    } else {
      var s, t, p, q := NotUniformTraps(f);
      var trap, c, other := TrapWorks(f, s, t, p, q);
    }
  }

  lemma CheapestThere(f: Fleet, c: Capture, other: Plan)
    requires f.Valid() && (OnePlatform(f) || f.Uniform()) && Captures(f, c) && Assigns(f, c, other)
    ensures Cost(f, c, Pass(c.tasks, c.cosimIdOf).plan) <= Cost(f, c, other)
  {
    hide Fleet.Valid, Fleet.Uniform, OnePlatform, Cost, Pass, Assigns;
    if f.Uniform() {
      UniformIsCheapest(f, c, other);
    } else {
      OnePlatformIsCheapest(f, c, other);
    }
  }
}
