/** Why the shortest-queue rule "avoids the term without computing it": its plan inflicts the least future waiting. */
module ReactiveRule {
  import opened Balance
  import opened Externality
  import opened NestedPools
  import opened Reals
  import opened Scheduler
  import opened Sums
  import opened Wrappers

  /** The arrival rate that the charge reads: a rate that is not positive charges nothing. */
  function Rate(ctx: Context, p: Platform): real {
    Max(ctx.Lambda(p), 0.0)
  }

  /** A batch of tasks to be placed on a pool of platforms. base gives the queue depths at the start; keyOf names each
      platform's queue. */
  datatype Batch = Batch(ids: seq<nat>, sites: set<Platform>, keyOf: Platform -> string, base: string -> int,
                         ctx: Context, backlog: Platform -> real, drain: Platform -> real, weight: real)
  {
    ghost predicate Distinct() {
      && (forall i, j | 0 <= i < j < |ids| :: ids[i] != ids[j])
      && (forall p, q | p in sites && q in sites :: keyOf(p) == keyOf(q) ==> p == q)
    }

    /** Rates and drains may differ, but arrival rate times squared drain is the same on every platform. */
    ghost predicate Even() {
      && Distinct() && weight >= 0.0
      && (forall p | p in sites :: drain(p) >= 0.0 && Weight(p) == weight)
      && (forall id, p | id in ids && p in sites :: ctx.Work(id, p) == Ok(drain(p)))
      && (forall p | p in sites :: backlog(p) == Times(drain(p), base(keyOf(p)) as real))
    }

    function Weight(p: Platform): real {
      Times(Rate(ctx, p), Times(drain(p), drain(p)))
    }

    function Pool(): set<string> {
      set p | p in sites :: keyOf(p)
    }

    /** A plan for exactly this batch, on platforms of the pool. */
    ghost predicate Places(plan: Plan) {
      (forall id :: id in plan <==> id in ids) && forall id | id in plan :: plan[id].1 in sites
    }

    /** The queues that a plan puts the tasks on, in order. */
    function RunOf(plan: Plan): (r: seq<string>)
      requires forall id | id in ids :: id in plan
      ensures |r| == |ids| && forall i | 0 <= i < |ids| :: r[i] == keyOf(plan[ids[i]].1)
    {
      seq(|ids|, i requires 0 <= i < |ids| => keyOf(plan[ids[i]].1))
    }
  }

  // ----- the work a plan adds, as a load -----

  lemma OneMore(drain: real, n: nat)
    ensures Times(drain, (n + 1) as real) == Times(drain, n as real) + drain
    ensures Times(drain, 0.0) == 0.0
  {
    assert (n + 1) as real == n as real + 1.0;
  }

  function IdSet(ids: seq<nat>): set<nat> {
    set id | id in ids
  }

  /** A term that is the drain for the tasks on queue k and nothing otherwise adds up to the load of k. */
  lemma {:induction false} LoadedSum(ids: seq<nat>, run: seq<string>, k: string, drain: real, work: nat -> real)
    requires |run| == |ids| && forall i, j | 0 <= i < j < |ids| :: ids[i] != ids[j]
    requires forall i | 0 <= i < |ids| :: work(ids[i]) == if run[i] == k then drain else 0.0
    ensures SetSum(IdSet(ids), work) == Times(drain, Load(run, k) as real)
  {
    hide Times;
    if ids == [] {
      OneMore(drain, 0);
    } else {
      var front, last := ids[..|ids| - 1], ids[|ids| - 1];
      var some := IdSet(front);
      LoadedSum(front, run[..|ids| - 1], k, drain, work);
      assert ids == front + [last];
      assert IdSet(ids) == some + {last};
      SetSumAdd(some, last, work);
      OneMore(drain, Load(run[..|ids| - 1], k));
    }
  }

  /** The work a plan adds to a platform of the pool is its number of tasks there times the drain. */
  lemma AddedIsLoad(b: Batch, plan: Plan, p: Platform)
    requires b.Even() && b.Places(plan) && p in b.sites
    ensures Added(plan, b.ctx)(p) == Times(b.drain(p), Load(b.RunOf(plan), b.keyOf(p)) as real)
  {
    forall i | 0 <= i < |b.ids|
      ensures WorkOn(plan, b.ctx, p)(b.ids[i]) == if b.RunOf(plan)[i] == b.keyOf(p) then b.drain(p) else 0.0
    {
      WorkOfTask(b, plan, p, i);
    }
    hide Times, Load, WorkOn, Batch.Places, Batch.RunOf;
    LoadedSum(b.ids, b.RunOf(plan), b.keyOf(p), b.drain(p), WorkOn(plan, b.ctx, p));
    KeysAreIds(b, plan);
  }

  lemma KeysAreIds(b: Batch, plan: Plan)
    requires b.Places(plan)
    ensures plan.Keys == IdSet(b.ids)
  {
  }

  lemma WorkOfTask(b: Batch, plan: Plan, p: Platform, i: nat)
    requires b.Even() && b.Places(plan) && p in b.sites && i < |b.ids|
    ensures WorkOn(plan, b.ctx, p)(b.ids[i]) == if b.RunOf(plan)[i] == b.keyOf(p) then b.drain(p) else 0.0
  {
    assert b.ids[i] in b.ids && plan[b.ids[i]].1 in b.sites;
    assert b.ctx.Work(b.ids[i], p) == Ok(b.drain(p));
  }

  lemma WorkIsEven(b: Batch, plan: Plan)
    requires b.Even() && b.Places(plan)
    ensures NonNegativeWork(plan, b.ctx) && Platforms(plan) <= b.sites
  {
    forall id | id in plan
      ensures b.ctx.Work(id, plan[id].1) == Ok(b.drain(plan[id].1)) && b.drain(plan[id].1) >= 0.0
    {
      assert id in b.ids;
    }
  }

  // ----- the charge of a platform, as a triangle -----

  /** ((b + n)^2 - b^2) / 2 for a queue of depth b that receives n items, in triangles. */
  function Inflicted(run: seq<string>, base: string -> int): string -> real {
    k => (FinalTriangle(run, base)(k) - FinalTriangle([], base)(k))
       + (FinalDepth(run, base)(k) - FinalDepth([], base)(k)) / 2.0
  }

  function HalfSquares(x: real, y: real): real {
    ((x + y) * (x + y) - x * x) / 2.0
  }

  lemma SquareIsTriangles(b: int, n: nat)
    ensures (Triangle(b + n) - Triangle(b)) + n as real / 2.0 == HalfSquares(b as real, n as real)
  {
    var x, y := b as real, n as real;
    assert (b + n) as real == x + y;
    assert ((b + n) * (b + n - 1)) as real == (x + y) * (x + y) - (x + y);
    assert (b * (b - 1)) as real == x * x - x;
  }

  lemma ChargeScales(lam: real, c: real, x: real, y: real)
    requires c >= 0.0 && y >= 0.0
    ensures Charge(lam, Times(c, x), Times(c, y)) == Times(Times(Max(lam, 0.0), Times(c, c)), HalfSquares(x, y))
  {
    if lam > 0.0 && c > 0.0 && y > 0.0 {
      var s := (x + y) * (x + y) - x * x;
      assert c * y > 0.0;
      assert (c * x + c * y) * (c * x + c * y) == (c * c) * ((x + y) * (x + y));
      assert (c * x) * (c * x) == (c * c) * (x * x);
      assert (c * c) * ((x + y) * (x + y)) - (c * c) * (x * x) == (c * c) * s;
      assert 0.5 * lam * ((c * c) * s) == (lam * (c * c)) * (s / 2.0);
    } else if lam <= 0.0 {
      assert Times(0.0, Times(c, c)) == 0.0;
    } else if c == 0.0 {
      assert c * y == 0.0 && c * c == 0.0;
    } else {
      assert c * y == 0.0;
      assert (lam * (c * c)) * 0.0 == 0.0;
    }
  }

  lemma EvenSite(b: Batch, p: Platform)
    requires b.Even() && p in b.sites
    ensures b.backlog(p) == Times(b.drain(p), b.base(b.keyOf(p)) as real)
    ensures b.drain(p) >= 0.0 && Times(Max(b.ctx.Lambda(p), 0.0), Times(b.drain(p), b.drain(p))) == b.weight
  {
  }

  lemma ChargeOfSite(b: Batch, plan: Plan, p: Platform)
    requires b.Even() && b.Places(plan) && p in b.sites
    ensures ChargeOn(b.ctx, b.backlog, Added(plan, b.ctx))(p)
         == Times(b.weight, Inflicted(b.RunOf(plan), b.base)(b.keyOf(p)))
  {
    hide Batch.Even, Times, Max, Charge, Triangle, HalfSquares, Added, Batch.RunOf, Load, Inflicted;
    AddedIsLoad(b, plan, p);
    var k := b.keyOf(p);
    var run, depth := b.RunOf(plan), b.base(k);
    EvenSite(b, p);
    SquareIsTriangles(depth, Load(run, k));
    ChargeScales(b.ctx.Lambda(p), b.drain(p), depth as real, Load(run, k) as real);
    InflictedAt(run, b.base, k);
  }

  lemma InflictedAt(run: seq<string>, base: string -> int, k: string)
    ensures Inflicted(run, base)(k)
         == (Triangle(base(k) + Load(run, k)) - Triangle(base(k))) + Load(run, k) as real / 2.0
  {
    hide Triangle;
    assert Final([], base, k) == base(k);
    assert FinalTriangle([], base)(k) == Triangle(base(k));
    assert FinalTriangle(run, base)(k) == Triangle(base(k) + Load(run, k));
    assert FinalDepth([], base)(k) == base(k) as real;
    assert FinalDepth(run, base)(k) == base(k) as real + Load(run, k) as real;
  }

  lemma ChargesAddUp(b: Batch, plan: Plan)
    requires b.Even() && b.Places(plan)
    ensures SetSum(b.sites, ChargeOn(b.ctx, b.backlog, Added(plan, b.ctx)))
         == Times(b.weight, SetSum(b.sites, Compose(Inflicted(b.RunOf(plan), b.base), b.keyOf)))
  {
    var inflicted := Inflicted(b.RunOf(plan), b.base);
    var charge := ChargeOn(b.ctx, b.backlog, Added(plan, b.ctx));
    hide Times, Inflicted, ChargeOn, Added, Batch.RunOf;
    forall p | p in b.sites
      ensures charge(p) == Times(b.weight, Compose(inflicted, b.keyOf)(p))
    {
      ChargeOfSite(b, plan, p);
    }
    SetSumScale(b.sites, charge, b.weight, Compose(inflicted, b.keyOf));
  }

  /** The externality of a plan over an even pool only depends on where its queues end up. */
  lemma ExternalityIsPotential(b: Batch, plan: Plan)
    requires b.Even() && b.Places(plan)
    ensures ExternalityOn(plan, b.ctx, b.backlog)
         == Times(b.weight, SetSum(b.Pool(), Inflicted(b.RunOf(plan), b.base)))
  {
    PoolSum(b, Inflicted(b.RunOf(plan), b.base));
    WorkIsEven(b, plan);
    hide Times, Inflicted, ExternalityOn, ChargeOn, Added, Batch.RunOf, Batch.Even, Batch.Pool, Platforms;
    ExternalityPadded(plan, b.ctx, b.backlog, b.sites);
    ChargesAddUp(b, plan);
  }

  lemma PoolSum(b: Batch, f: string -> real)
    requires b.Distinct()
    ensures SetSum(b.Pool(), f) == SetSum(b.sites, Compose(f, b.keyOf))
  {
    SetSumRenamed(b.sites, b.Pool(), b.keyOf, f);
  }

  // ----- a level run inflicts the least -----

  function Risen(run: seq<string>, base: string -> int): string -> real {
    k => FinalTriangle(run, base)(k) - FinalTriangle([], base)(k)
  }

  function Filled(run: seq<string>, base: string -> int): string -> real {
    k => FinalDepth(run, base)(k) - FinalDepth([], base)(k)
  }

  function HalfFilled(run: seq<string>, base: string -> int): string -> real {
    k => Filled(run, base)(k) / 2.0
  }

  lemma InflictedTotal(run: seq<string>, base: string -> int, pool: set<string>)
    requires Within(run, pool)
    ensures SetSum(pool, Inflicted(run, base))
         == (SetSum(pool, FinalTriangle(run, base)) - SetSum(pool, FinalTriangle([], base))) + |run| as real / 2.0
  {
    hide FinalTriangle, FinalDepth;
    SetSumPlus(pool, FinalTriangle(run, base), FinalTriangle([], base), Risen(run, base));
    SetSumPlus(pool, FinalDepth(run, base), FinalDepth([], base), Filled(run, base));
    SetSumPlus(pool, Filled(run, base), HalfFilled(run, base), HalfFilled(run, base));
    SetSumPlus(pool, Inflicted(run, base), Risen(run, base), HalfFilled(run, base));
    DepthMetIsPotential(run, base, pool);
  }

  lemma TimesMonotone(w: real, x: real, y: real)
    requires w >= 0.0 && x <= y
    ensures Times(w, x) <= Times(w, y)
  {
    var d := y - x;
    assert w * d >= 0.0;
    assert w * y == w * x + w * d;
  }

  lemma RunWithin(b: Batch, plan: Plan)
    requires b.Places(plan)
    ensures Within(b.RunOf(plan), b.Pool())
  {
    forall i | 0 <= i < |b.ids|
      ensures b.RunOf(plan)[i] in b.Pool()
    {
      assert b.ids[i] in b.ids && plan[b.ids[i]].1 in b.sites;
    }
  }

  /** A plan whose queues end up lower in potential inflicts less. */
  lemma LessPotentialInflictsLess(b: Batch, plan: Plan, other: Plan)
    requires b.Even() && b.Places(plan) && b.Places(other)
    requires SetSum(b.Pool(), FinalTriangle(b.RunOf(plan), b.base))
          <= SetSum(b.Pool(), FinalTriangle(b.RunOf(other), b.base))
    ensures ExternalityOn(plan, b.ctx, b.backlog) <= ExternalityOn(other, b.ctx, b.backlog)
  {
    RunWithin(b, plan);
    RunWithin(b, other);
    ExternalityIsPotential(b, plan);
    ExternalityIsPotential(b, other);
    hide Times, Inflicted, ExternalityOn, Within, Batch.Pool, FinalTriangle;
    var run, run' := b.RunOf(plan), b.RunOf(other);
    InflictedTotal(run, b.base, b.Pool());
    InflictedTotal(run', b.base, b.Pool());
    TimesMonotone(b.weight, SetSum(b.Pool(), Inflicted(run, b.base)), SetSum(b.Pool(), Inflicted(run', b.base)));
  }

  lemma LevelInflictsLeast(b: Batch, plan: Plan, other: Plan)
    requires b.Even() && b.Places(plan) && b.Places(other)
    requires Level(b.RunOf(plan), b.base, b.Pool())
    ensures ExternalityOn(plan, b.ctx, b.backlog) <= ExternalityOn(other, b.ctx, b.backlog)
  {
    RunWithin(b, plan);
    RunWithin(b, other);
    LevelHasLeastPotential(b.RunOf(plan), b.RunOf(other), b.base, b.Pool());
    LessPotentialInflictsLess(b, plan, other);
  }

  // ----- the shortest-queue plan -----

  /** Every candidate the scheduler may choose sits on a platform of the pool and carries that platform's queue key. */
  ghost predicate Offers(tasks: seq<Task>, b: Batch) {
    forall t, c | t in tasks && c in Pool(t.candidates) :: c.platform in b.sites && c.queueKey == b.keyOf(c.platform)
  }

  /** The plan's entries follow the run of choices. */
  lemma {:induction false} PlanFollowsRun(tasks: seq<Task>, cosimIdOf: map<int, nat>, b: Batch)
    requires Ready(tasks, cosimIdOf) && b.ids == CosimIds(tasks, cosimIdOf) && b.Distinct() && Offers(tasks, b)
    ensures b.Places(Pass(tasks, cosimIdOf).plan)
    ensures b.RunOf(Pass(tasks, cosimIdOf).plan) == Pass(tasks, cosimIdOf).run
  {
    if tasks != [] {
      var front, task := tasks[..|tasks| - 1], tasks[|tasks| - 1];
      assert tasks == front + [task];
      assert task in tasks;
      FrontOf(front, task, cosimIdOf, b);
      hide Pass, Choice, Pool, Ready, Batch.Places, Batch.RunOf, Batch.Distinct, Offers;
      var b' := b.(ids := CosimIds(front, cosimIdOf));
      PlanFollowsRun(front, cosimIdOf, b');
      PassNext(front, task, cosimIdOf);
      var c := Choice(Pass(front, cosimIdOf).depth, task);
      ChoiceOffered(Pass(front, cosimIdOf).depth, task, b);
      OneMorePlaced(b', Pass(front, cosimIdOf).plan, cosimIdOf[task.traceId], (c.node, c.platform));
    }
  }

  lemma FrontOf(front: seq<Task>, task: Task, cosimIdOf: map<int, nat>, b: Batch)
    requires Ready(front + [task], cosimIdOf) && b.ids == CosimIds(front + [task], cosimIdOf)
    requires b.Distinct() && Offers(front + [task], b)
    ensures Ready(front, cosimIdOf) && Ready([task], cosimIdOf) && task.candidates != [] && task.traceId in cosimIdOf
    ensures var b' := b.(ids := CosimIds(front, cosimIdOf)); var id := cosimIdOf[task.traceId];
      b'.Distinct() && Offers(front, b') && Offers([task], b) && b == b'.(ids := b'.ids + [id]) && id !in b'.ids
  {
    assert task in front + [task] && forall t | t in front :: t in front + [task];
    var b' := b.(ids := CosimIds(front, cosimIdOf));
    assert b.ids == b'.ids + [cosimIdOf[task.traceId]];
    assert forall i | 0 <= i < |front| :: b.ids[i] == b'.ids[i];
    assert b.ids[|front|] == cosimIdOf[task.traceId];
  }

  lemma ChoiceOffered(depth: Depths, task: Task, b: Batch)
    requires task.candidates != [] && Offers([task], b)
    ensures var c := Choice(depth, task); c.platform in b.sites && c.queueKey == b.keyOf(c.platform)
  {
    assert task in [task] && Choice(depth, task) in Pool(task.candidates);
  }

  lemma OneMorePlaced(b: Batch, plan: Plan, id: nat, place: (int, Platform))
    requires b.Places(plan) && id !in b.ids && place.1 in b.sites
    ensures var b', plan' := b.(ids := b.ids + [id]), plan[id := place];
      b'.Places(plan') && b'.RunOf(plan') == b.RunOf(plan) + [b.keyOf(place.1)]
  {
    var b', plan' := b.(ids := b.ids + [id]), plan[id := place];
    assert forall i :: i in b'.ids <==> i in b.ids || i == id;
    forall i | 0 <= i < |b.ids|
      ensures b'.RunOf(plan')[i] == b.RunOf(plan)[i]
    {
      assert b'.ids[i] == b.ids[i] && b.ids[i] in b.ids;
    }
  }

  /** The shortest-queue plan minimises the externality over all placements of the tasks on queues of their pools,
      where the platforms are even and every later pool takes in an earlier one or shares nothing with it. */
  lemma ShortestQueueMinimisesExternality(tasks: seq<Task>, cosimIdOf: map<int, nat>, b: Batch, other: Plan)
    requires Ready(tasks, cosimIdOf) && Nested(PoolsOf(tasks)) && Offers(tasks, b)
    requires b.ids == CosimIds(tasks, cosimIdOf) && b.base == Start(tasks) && b.Even()
    requires b.Places(other) && Allowed(b.RunOf(other), PoolsOf(tasks))
    ensures b.Places(Pass(tasks, cosimIdOf).plan)
    ensures ExternalityOn(Pass(tasks, cosimIdOf).plan, b.ctx, b.backlog) <= ExternalityOn(other, b.ctx, b.backlog)
  {
    var plan := Pass(tasks, cosimIdOf).plan;
    PlanFollowsRun(tasks, cosimIdOf, b);
    hide Pass, PoolsOf, Nested, Offers, Allowed, Ready, Batch.RunOf, Batch.Places, Batch.Even, ExternalityOn;
    RunWithin(b, plan);
    RunWithin(b, other);
    PassIsGreedy(tasks, cosimIdOf, b.base);
    GreedyHasLeastPotential(b.RunOf(plan), PoolsOf(tasks), b.RunOf(other), b.base, b.Pool());
    LessPotentialInflictsLess(b, plan, other);
  }

  /** In particular over all placements on the pool, where all tasks share it. */
  lemma SharedPoolAllowsAll(tasks: seq<Task>, b: Batch, other: Plan)
    requires SharedPool(tasks, b.Pool()) && |tasks| == |b.ids| && b.Places(other)
    ensures Nested(PoolsOf(tasks)) && Allowed(b.RunOf(other), PoolsOf(tasks))
  {
    hide PoolKeys, Batch.Pool;
    RunWithin(b, other);
    SharedIsNested(tasks, b.Pool());
  }
}
